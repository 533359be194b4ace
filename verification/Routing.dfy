/** Which applications a call visits. */
module Routing {
  import opened Text
  import opened Wrappers

  /** A compiled rule. A pattern is what it matches; an absent one matches everything. */
  datatype Rule = Rule(verb: string, from: Option<string -> bool>, to: Option<string -> bool>)

  datatype Input = Input(verb: string, from: string, to: string)

  predicate SameVerb(a: string, b: string) {
    Lower(a) == Lower(b)
  }

  method EqualMethod(a: string, b: string) returns (r: bool)
    ensures r <==> SameVerb(a, b)
  {
    if |a| != |b| {
      return false;
    }
    for i := 0 to |a|
      invariant forall j | 0 <= j < i :: LowerChar(a[j]) == LowerChar(b[j])
    {
      var ca, cb := a[i], b[i];
      if 'A' <= ca <= 'Z' {
        ca := ca + 32 as char;
      }
      if 'A' <= cb <= 'Z' {
        cb := cb + 32 as char;
      }
      assert ca == LowerChar(a[i]) && cb == LowerChar(b[i]);
      if ca != cb {
        assert Lower(a)[i] != Lower(b)[i];
        return false;
      }
    }
    return true;
  }

  predicate Matches(r: Option<Rule>, x: Input) {
    if r.None? then true
    else if r.value.verb != "" && !SameVerb(r.value.verb, x.verb) then false
    else if r.value.from.Some? && !r.value.from.value(x.from) then false
    else if r.value.to.Some? && !r.value.to.value(x.to) then false
    else true
  }

  /** Every specified field is an independent condition and an absent one admits anything: a
      rule matches what each of its fields, alone in a rule, would match. */
  lemma MatchesEachField(r: Rule, x: Input)
    ensures Matches(Some(r), x) <==>
              && Matches(Some(Rule(r.verb, None, None)), x)
              && Matches(Some(Rule("", r.from, None)), x)
              && Matches(Some(Rule("", None, r.to)), x)
    ensures Matches(Some(Rule("", None, None)), x) && Matches(None, x)
  {
  }

  /** What a rule with all its fields says of a call: the method names the same verb or is empty,
      the from pattern matches the From address and the to pattern the To address, and an absent
      pattern, or an absent rule, asks nothing. */
  lemma MatchesMeans(verb: string, f: string -> bool, t: string -> bool, x: Input)
    ensures Matches(Some(Rule("", Some(f), None)), x) <==> f(x.from)
    ensures Matches(Some(Rule("", None, Some(t))), x) <==> t(x.to)
    ensures Matches(Some(Rule(verb, None, None)), x) <==> verb == "" || Lower(verb) == Lower(x.verb)
    ensures Matches(Some(Rule(verb, Some(f), Some(t))), x) <==>
              (verb == "" || Lower(verb) == Lower(x.verb)) && f(x.from) && t(x.to)
    ensures Matches(Some(Rule(verb, Some(f), None)), x) <==> (verb == "" || Lower(verb) == Lower(x.verb)) && f(x.from)
    ensures Matches(Some(Rule(verb, None, Some(t))), x) <==> (verb == "" || Lower(verb) == Lower(x.verb)) && t(x.to)
    ensures Matches(Some(Rule("", None, None)), x) && Matches(None, x)
  {
  }

  /** Letters differ only in case: what the comparison of methods goes by. */
  lemma VerbLetters(a: string, b: string)
    ensures SameVerb(a, b) <==>
              && |a| == |b|
              && forall i | 0 <= i < |a| ::
                   || a[i] == b[i]
                   || ('A' <= a[i] <= 'Z' && b[i] as int == a[i] as int + 32)
                   || ('A' <= b[i] <= 'Z' && a[i] as int == b[i] as int + 32)
  {
    assert |Lower(a)| == |a| && |Lower(b)| == |b|;
    forall i | 0 <= i < |a| && i < |b|
      ensures Lower(a)[i] == Lower(b)[i] <==>
                || a[i] == b[i]
                || ('A' <= a[i] <= 'Z' && b[i] as int == a[i] as int + 32)
                || ('A' <= b[i] <= 'Z' && a[i] as int == b[i] as int + 32)
    {
      assert Lower(a)[i] == LowerChar(a[i]) && Lower(b)[i] == LowerChar(b[i]);
    }
  }

  /** The case of the method letters never matters, on either side. */
  lemma VerbCase(r: Rule, x: Input, verb: string, verb': string)
    requires SameVerb(verb, r.verb) && SameVerb(verb', x.verb)
    ensures Matches(Some(r), x) <==> Matches(Some(r.(verb := verb)), x.(verb := verb'))
  {
    assert |Lower(verb)| == |verb| && |Lower(r.verb)| == |r.verb|;
  }
}
