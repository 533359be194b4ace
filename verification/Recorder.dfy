/** The recording application's own SDP code: it reads the sequencer's tap offer and
    answers it. Independent of the sequencer's readers. */
module Recorder {
  import opened Text
  import opened Wrappers

  const MEDIA := "m="
  const AUDIO := "m=audio "
  const RTPMAP := "a=rtpmap:"
  const FMTP := "a=fmtp:"

  datatype AudioStream = AudioStream(formats: string, rtpmaps: seq<string>, fmtps: seq<string>)

  datatype OfferError = MalformedAudio | NoAudio | TooFewPorts

  datatype OfferScan = OfferScan(streams: seq<AudioStream>, current: bool)

  function OfferStep(st: OfferScan, l: string): Result<OfferScan, OfferError>
    requires st.current ==> st.streams != []
  {
    var n := |st.streams|;
    if HasPrefix(l, MEDIA) then
      if HasPrefix(l, AUDIO) then
        if |Fields(l)| < 4 then Err(MalformedAudio)
        else Ok(OfferScan(st.streams + [AudioStream(Join(Fields(l)[3..], ' '), [], [])], true))
      else Ok(st.(current := false))
    else if !st.current then Ok(st)
    else if HasPrefix(l, RTPMAP) then
      Ok(st.(streams := st.streams[n - 1 := st.streams[n - 1].(rtpmaps := st.streams[n - 1].rtpmaps + [l])]))
    else if HasPrefix(l, FMTP) then
      Ok(st.(streams := st.streams[n - 1 := st.streams[n - 1].(fmtps := st.streams[n - 1].fmtps + [l])]))
    else Ok(st)
  }

  function OfferFold(st: OfferScan, ls: seq<string>): Result<OfferScan, OfferError>
    requires st.current ==> st.streams != []
    decreases |ls|
  {
    if ls == [] then Ok(st)
    else match OfferStep(st, ls[0])
      case Err(e) => Err(e)
      case Ok(next) => OfferFold(next, ls[1..])
  }

  function Streams(ls: seq<string>): Result<seq<AudioStream>, OfferError> {
    match OfferFold(OfferScan([], false), ls)
    case Err(e) => Err(e)
    case Ok(st) => if st.streams == [] then Err(NoAudio) else Ok(st.streams)
  }

  method ParseOffer(sdp: string) returns (r: Result<seq<AudioStream>, OfferError>)
    ensures r == Streams(Lines(sdp))
  {
    var ls := Lines(sdp);
    var streams: seq<AudioStream>, current := [], false;
    assert ls[0..] == ls;
    for i := 0 to |ls|
      invariant current ==> streams != []
      invariant OfferFold(OfferScan([], false), ls) == OfferFold(OfferScan(streams, current), ls[i..])
    {
      var line := ls[i];
      assert ls[i..][0] == line && ls[i..][1..] == ls[i + 1..];
      if HasPrefix(line, MEDIA) {
        if HasPrefix(line, AUDIO) {
          var fields := Fields(line);
          if |fields| < 4 {
            return Err(MalformedAudio);
          }
          streams := streams + [AudioStream(Join(fields[3..], ' '), [], [])];
          current := true;
        } else {
          current := false;
        }
      } else if current {
        var n := |streams| - 1;
        if HasPrefix(line, RTPMAP) {
          streams := streams[n := streams[n].(rtpmaps := streams[n].rtpmaps + [line])];
        } else if HasPrefix(line, FMTP) {
          streams := streams[n := streams[n].(fmtps := streams[n].fmtps + [line])];
        }
      }
    }
    if |streams| == 0 {
      return Err(NoAudio);
    }
    return Ok(streams);
  }

  // ----- buildAnswer ---------------------------------------------------------

  function AnswerHead(host: string): seq<string> {
    ["v=0", "o=- 0 0 IN IP4 " + host, "s=-", "t=0 0"]
  }

  function AnswerBlock(s: AudioStream, host: string, port: int): seq<string> {
    [AUDIO + Itoa(port) + " RTP/AVP " + s.formats, "c=IN IP4 " + host] + s.rtpmaps + s.fmtps + ["a=recvonly"]
  }

  function AnswerBlocks(streams: seq<AudioStream>, host: string, ports: seq<int>): seq<string>
    requires |streams| <= |ports|
  {
    if streams == [] then []
    else
      var n := |streams| - 1;
      AnswerBlocks(streams[..n], host, ports) + AnswerBlock(streams[n], host, ports[n])
  }

  function Answer(offer: string, host: string, ports: seq<int>): Result<string, OfferError> {
    match Streams(Lines(offer))
    case Err(e) => Err(e)
    case Ok(streams) =>
      if |ports| < |streams| then Err(TooFewPorts)
      else Ok(Crlf(AnswerHead(host) + AnswerBlocks(streams, host, ports)))
  }

  method BuildAnswer(offer: string, host: string, ports: seq<int>) returns (r: Result<string, OfferError>)
    ensures r == Answer(offer, host, ports)
  {
    var x := ParseOffer(offer);
    if x.Err? {
      return Err(x.error);
    }
    var streams := x.value;
    if |ports| < |streams| {
      return Err(TooFewPorts);
    }
    var b := WriteLines("", AnswerHead(host));
    ghost var head := AnswerHead(host);
    assert b == "" + Crlf(head) == Crlf(head);
    assert head + AnswerBlocks(streams[..0], host, ports) == head;
    for i := 0 to |streams|
      invariant b == Crlf(head + AnswerBlocks(streams[..i], host, ports))
    {
      BlocksSnoc(streams, host, ports, i);
      b := WriteLines(b, AnswerBlock(streams[i], host, ports[i]));
      CrlfMore(head, AnswerBlocks(streams[..i], host, ports), AnswerBlock(streams[i], host, ports[i]));
    }
    assert streams[..|streams|] == streams;
    return Ok(b);
  }

  lemma BlocksSnoc(streams: seq<AudioStream>, host: string, ports: seq<int>, i: nat)
    requires i < |streams| <= |ports|
    ensures AnswerBlocks(streams[..i + 1], host, ports)
         == AnswerBlocks(streams[..i], host, ports) + AnswerBlock(streams[i], host, ports[i])
  {
    assert streams[..i + 1][..i] == streams[..i];
  }

  lemma CrlfMore(head: seq<string>, a: seq<string>, b: seq<string>)
    ensures Crlf(head + (a + b)) == Crlf(head + a) + Crlf(b)
  {
    CrlfConcat(head + a, b);
    assert head + (a + b) == head + a + b;
  }
}
