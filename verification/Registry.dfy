/** The registry of live calls: two indexes, by call id and by inbound dialog id. */
module Registry {
  import opened Wrappers

  datatype Index<C> = Index(m: map<string, C>, byDialog: map<string, C>)

  function Add<C>(x: Index<C>, id: string, c: C): Index<C> {
    x.(m := x.m[id := c])
  }

  function AddDialog<C>(x: Index<C>, dialog: string, c: C): Index<C> {
    if dialog == "" then x else x.(byDialog := x.byDialog[dialog := c])
  }

  function Remove<C>(x: Index<C>, id: string, dialog: string): Index<C> {
    Index(x.m - {id}, if dialog == "" then x.byDialog else x.byDialog - {dialog})
  }

  class Calls<C> {
    var m: map<string, C>
    var byDialog: map<string, C>

    function View(): Index<C>
      reads this
    {
      Index(m, byDialog)
    }

    constructor ()
      ensures View() == Index(map[], map[])
    {
      m, byDialog := map[], map[];
    }

    method Register(id: string, c: C)
      modifies this
      ensures View() == Add(old(View()), id, c)
    {
      m := m[id := c];
    }

    method RegisterDialog(dialog: string, c: C)
      modifies this
      ensures View() == AddDialog(old(View()), dialog, c)
    {
      if dialog == "" {
        return;
      }
      byDialog := byDialog[dialog := c];
    }

    method GetByDialog(dialog: string) returns (c: Option<C>)
      ensures c == if dialog in View().byDialog then Some(View().byDialog[dialog]) else None
    {
      c := if dialog in byDialog then Some(byDialog[dialog]) else None;
    }

    method Deregister(id: string, dialog: string)
      modifies this
      ensures View() == Remove(old(View()), id, dialog)
    {
      m := m - {id};
      if dialog != "" {
        byDialog := byDialog - {dialog};
      }
    }
  }
}
