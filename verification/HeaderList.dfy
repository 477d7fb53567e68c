/**
 The list of packet headers a service registers: printed by `configuration/rpc.go`, kept as text in Redis and on
 the event stream, and parsed by `configuration/data.go` and `api/configuration/api.go`.
 */
module HeaderList {
  import opened Decimal
  import Wire

  predicate AllInt32(headers: seq<int>) {
    forall h :: h in headers ==> IsInt32(h)
  }

  /** The decimal form of every header. */
  function Printed(headers: seq<int>): (r: seq<string>)
    ensures |r| == |headers|
  {
    seq(|headers|, i requires 0 <= i < |headers| => Print(headers[i]))
  }

  function Text(headers: seq<int>): string {
    Join(Printed(headers), ';')
  }

  /** The parts that parse, in order; the others are skipped. */
  function Parsed(parts: seq<string>): seq<int> {
    if parts == [] then []
    else
      var front, n := Parsed(parts[..|parts| - 1]), ParseInt32(parts[|parts| - 1]);
      if n.Some? then front + [n.value] else front
  }

  function Headers(text: string): seq<int> {
    Parsed(Split(text, ';'))
  }

  lemma {:induction false} ParsedWhenAllParse(parts: seq<string>, headers: seq<int>)
    requires |parts| == |headers| && forall i :: 0 <= i < |parts| ==> ParseInt32(parts[i]) == Some(headers[i])
    ensures Parsed(parts) == headers
  {
    if headers != [] {
      var n := |headers| - 1;
      ParsedWhenAllParse(parts[..n], headers[..n]);
      assert headers == headers[..n] + [headers[n]];
    }
  }

  /** Every list of 32-bit headers survives printing and parsing, the empty list and negative headers included. */
  lemma RoundTrip(headers: seq<int>)
    requires AllInt32(headers)
    ensures Headers(Text(headers)) == headers
  {
    var parts := Printed(headers);
    forall p | p in parts ensures ';' !in p {
      var i :| 0 <= i < |parts| && parts[i] == p;
      assert p == Print(headers[i]);
    }
    SplitOfJoin(parts, ';');
    if headers == [] {
      assert Parsed([""][..0]) == [];
    } else {
      forall i | 0 <= i < |headers| ensures ParseInt32(parts[i]) == Some(headers[i]) {
        ParseInt32OfPrint(headers[i]);
      }
      ParsedWhenAllParse(parts, headers);
    }
  }

  /** The client library converts each header with `int32(h)`. */
  function Truncated(headers: seq<int>): (r: seq<int>)
    ensures |r| == |headers|
  {
    seq(|headers|, i requires 0 <= i < |headers| => Wire.Signed32(headers[i] % Wire.TWO32))
  }

  /** What a client passes is what every reader of the list gets exactly if all headers fit in 32 bits. */
  lemma ClientRoundTripIff(headers: seq<int>)
    ensures AllInt32(Truncated(headers))
    ensures Headers(Text(Truncated(headers))) == headers <==> AllInt32(headers)
  {
    var sent := Truncated(headers);
    forall i | 0 <= i < |headers| ensures IsInt32(sent[i]) && (sent[i] == headers[i] <==> IsInt32(headers[i])) {
      Wire.Signed32Mod(headers[i]);
    }
    RoundTrip(sent);
    if AllInt32(headers) {
      assert forall i :: 0 <= i < |headers| ==> headers[i] in headers;
    } else {
      var h :| h in headers && !IsInt32(h);
      var i :| 0 <= i < |headers| && headers[i] == h;
      assert sent[i] != headers[i];
    }
  }

  /** The loop of `newNetworkingUpdateEvent` and of `RegisterService`. */
  method PrintHeaders(headers: seq<int>) returns (text: string)
    ensures text == Text(headers)
  {
    var parts := new string[|headers|](_ => "");
    for i := 0 to |headers|
      invariant forall k :: 0 <= k < i ==> parts[k] == Print(headers[k])
    {
      parts[i] := Print(headers[i]);
    }
    assert parts[..] == Printed(headers);
    text := Join(parts[..], ';');
  }

  /** The loop of `toProto` and of `GenericEventToNetworkConfigurationEvent`. */
  method ParseHeaders(text: string) returns (headers: seq<int>)
    ensures headers == Headers(text)
  {
    var parts := Split(text, ';');
    headers := [];
    for i := 0 to |parts|
      invariant headers == Parsed(parts[..i])
    {
      var n := ParseInt32(parts[i]);
      assert parts[..i + 1][..i] == parts[..i];
      if n.Some? {
        headers := headers + [n.value];
      }
    }
    assert parts[..|parts|] == parts;
  }
}
