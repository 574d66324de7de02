/** Reading the final answer as JSON, if need be after taking off one code fence. */
module Fence {
  import opened Wrappers

  newtype byte = x: int | 0 <= x < 256

  const BACKTICK: byte := 96
  const NEWLINE: byte := 10
  const OPENER: seq<byte> := [96, 96, 96, 106, 115, 111, 110, 10]
  const CLOSER: seq<byte> := [96, 96, 96]

  /** The whitespace of section 2 of RFC 8259. */
  predicate IsSpace(b: byte) {
    b == 32 || b == 9 || b == 13 || b == NEWLINE
  }

  predicate AllSpace(s: seq<byte>) {
    forall i :: 0 <= i < |s| ==> IsSpace(s[i])
  }

  datatype Mode = Strict | JsonOrSingleFence

  datatype Value<V> = Parsed(json: V) | Undecoded(raw: seq<byte>)

  datatype Failure = NotJson | Rejected | NotEncodable

  datatype Normalized<V> = Normalized(value: Value<V>, text: seq<byte>, removed: seq<(nat, nat)>,
    failure: Option<Failure>)

  /** The decoder, the schema check and the check that the value can be written out again. */
  datatype Reader<!V> = Reader(parse: seq<byte> -> Option<V>, accepts: V -> bool, encodable: V -> bool)

  /** No JSON text starts with a backtick. */
  ghost predicate RefusesBackticks<V>(reader: Reader<V>) {
    forall left, rest {:trigger reader.parse(left + [BACKTICK] + rest)} ::
      AllSpace(left) ==> reader.parse(left + [BACKTICK] + rest).None?
  }

  // ----- The specification -----

  /** The text is one fenced block between whitespace, the closing fence on a line of its own. */
  ghost predicate Wraps(raw: seq<byte>, left: seq<byte>, body: seq<byte>, right: seq<byte>) {
    && raw == left + OPENER + body + CLOSER + right && AllSpace(left) && AllSpace(right)
    && (body == [] || body[|body| - 1] == NEWLINE)
  }

  ghost predicate Fenced<V>(reader: Reader<V>, raw: seq<byte>, left: seq<byte>, body: seq<byte>, right: seq<byte>) {
    Wraps(raw, left, body, right) && reader.parse(left + body + right).Some?
  }

  function Read<V>(reader: Reader<V>, raw: seq<byte>, text: seq<byte>, removed: seq<(nat, nat)>): Normalized<V> {
    match reader.parse(text)
    case None => Normalized(Undecoded(raw), text, removed, Some(NotJson))
    case Some(v) =>
      if !reader.accepts(v) then Normalized(Parsed(v), text, removed, Some(Rejected))
      else if !reader.encodable(v) then Normalized(Undecoded(raw), text, removed, Some(NotEncodable))
      else Normalized(Parsed(v), text, removed, None)
  }

  // ----- The procedure -----

  function Leading(s: seq<byte>): (n: nat)
    ensures n <= |s| && AllSpace(s[..n]) && (n < |s| ==> !IsSpace(s[n]))
  {
    if s == [] || !IsSpace(s[0]) then 0 else 1 + Leading(s[1..])
  }

  function TrailingFrom(s: seq<byte>): (n: nat)
    ensures n <= |s| && AllSpace(s[n..]) && (n > 0 ==> !IsSpace(s[n - 1]))
  {
    if s == [] || !IsSpace(s[|s| - 1]) then |s| else TrailingFrom(s[..|s| - 1])
  }

  method NormalizeOutput<V>(raw: seq<byte>, mode: Mode, reader: Reader<V>) returns (out: Normalized<V>)
    ensures out == Normalize(raw, mode, reader)
  {
    var selected, removed := raw, [];
    if reader.parse(raw).None? && mode.JsonOrSingleFence? {
      var tokens := FindFences(raw);
      if tokens.Some? {
        var (start, close) := tokens.value;
        var candidate := Unfenced(raw, start, close);
        if reader.parse(candidate).Some? {
          selected, removed := candidate, [(start, start + 8), (close, close + 3)];
        }
      }
    }
    out := Read(reader, raw, selected, removed);
  }

  method FindFences(raw: seq<byte>) returns (r: Option<(nat, nat)>)
    ensures r == Tokens(raw)
  {
    var start: int, end: int := Leading(raw), TrailingFrom(raw);
    var close := end - 3;
    if start + 8 <= close && raw[start..start + 8] == OPENER && raw[close..end] == CLOSER && raw[close - 1] == NEWLINE {
      return Some((start, close));
    }
    return None;
  }

  predicate Delimited(raw: seq<byte>, start: nat, close: nat)
    requires start + 8 <= close && close + 3 <= |raw|
  {
    raw[start..start + 8] == OPENER && raw[close..close + 3] == CLOSER && raw[close - 1] == NEWLINE
  }

  /** The positions of the two fences, if the text has them. */
  function Tokens(raw: seq<byte>): (r: Option<(nat, nat)>)
    ensures r.Some? ==> r.value.0 + 8 <= r.value.1 && r.value.1 + 3 <= |raw| && Delimited(raw, r.value.0, r.value.1)
  {
    var start, end := Leading(raw), TrailingFrom(raw);
    if start + 11 <= end && Delimited(raw, start, end - 3) then Some((start, end - 3)) else None
  }

  function Unfenced(raw: seq<byte>, start: nat, close: nat): seq<byte>
    requires start + 8 <= close && close + 3 <= |raw|
  {
    raw[..start] + raw[start + 8..close] + raw[close + 3..]
  }

  function Ranges(left: seq<byte>, body: seq<byte>): seq<(nat, nat)> {
    [(|left|, |left| + 8), (|left| + 8 + |body|, |left| + 11 + |body|)]
  }

  function Normalize<V>(raw: seq<byte>, mode: Mode, reader: Reader<V>): Normalized<V> {
    if reader.parse(raw).Some? || mode.Strict? || Tokens(raw).None? then Read(reader, raw, raw, [])
    else
      var (start, close) := Tokens(raw).value;
      if reader.parse(Unfenced(raw, start, close)).None? then Read(reader, raw, raw, [])
      else Read(reader, raw, Unfenced(raw, start, close), [(start, start + 8), (close, close + 3)])
  }

  // ----- Where it acts -----

  lemma {:induction false} LeadingIs(left: seq<byte>, rest: seq<byte>)
    requires AllSpace(left) && rest != [] && !IsSpace(rest[0])
    ensures Leading(left + rest) == |left|
  {
    if left == [] {
      assert left + rest == rest;
    } else {
      LeadingIs(left[1..], rest);
      assert (left + rest)[1..] == left[1..] + rest;
    }
  }

  lemma {:induction false} TrailingIs(rest: seq<byte>, right: seq<byte>)
    requires AllSpace(right) && rest != [] && !IsSpace(rest[|rest| - 1])
    ensures TrailingFrom(rest + right) == |rest|
  {
    if right == [] {
      assert rest + right == rest;
    } else {
      var front := right[..|right| - 1];
      TrailingIs(rest, front);
      assert (rest + right)[..|rest + right| - 1] == rest + front;
    }
  }

  lemma {:induction false} Pieces(raw: seq<byte>, a: seq<byte>, b: seq<byte>, c: seq<byte>, d: seq<byte>, e: seq<byte>)
    requires raw == a + b + c + d + e
    ensures raw[..|a|] == a && raw[|a|..|a| + |b|] == b && raw[|a| + |b|..|a| + |b| + |c|] == c
    ensures raw[|a| + |b| + |c|..|a| + |b| + |c| + |d|] == d && raw[|a| + |b| + |c| + |d|..] == e
  {
  }

  lemma {:induction false} Outside(raw: seq<byte>, left: seq<byte>, body: seq<byte>, right: seq<byte>)
    requires Wraps(raw, left, body, right)
    ensures Leading(raw) == |left| && TrailingFrom(raw) == |left| + |body| + 11
  {
    LeadingIs(left, OPENER + body + CLOSER + right);
    assert raw == left + (OPENER + body + CLOSER + right);
    TrailingIs(left + OPENER + body + CLOSER, right);
  }

  /** A wrapping is found where it is, so there is at most one. */
  lemma {:induction false} WrappingIsFound(raw: seq<byte>, left: seq<byte>, body: seq<byte>, right: seq<byte>)
    requires Wraps(raw, left, body, right)
    ensures Tokens(raw) == Some((|left|, |left| + 8 + |body|))
    ensures Unfenced(raw, |left|, |left| + 8 + |body|) == left + body + right
  {
    Outside(raw, left, body, right);
    Pieces(raw, left, OPENER, body, CLOSER, right);
    var last := |left| + 7 + |body|;
    assert raw[last] == NEWLINE by {
      if body == [] {
        assert raw[last] == raw[|left|..|left| + 8][7];
      } else {
        assert raw[last] == raw[|left| + 8..|left| + 8 + |body|][|body| - 1];
      }
    }
  }

  lemma {:induction false} FoundIsWrapping(raw: seq<byte>)
    requires Tokens(raw).Some?
    ensures var (start, close) := Tokens(raw).value;
      start + 8 <= close <= |raw| - 3 && Wraps(raw, raw[..start], raw[start + 8..close], raw[close + 3..])
  {
    var (start, close) := Tokens(raw).value;
    assert raw ==
      raw[..start] + raw[start..start + 8] + raw[start + 8..close] + raw[close..close + 3] + raw[close + 3..];
  }

  lemma {:induction false} WrappedIsNotJson<V>(reader: Reader<V>, raw: seq<byte>, left: seq<byte>, body: seq<byte>,
                                               right: seq<byte>)
    requires RefusesBackticks(reader) && Wraps(raw, left, body, right)
    ensures reader.parse(raw).None?
  {
    assert raw == left + [BACKTICK] + (OPENER[1..] + body + CLOSER + right);
  }

  lemma {:induction false} ActsOnFences<V>(raw: seq<byte>, reader: Reader<V>, left: seq<byte>, body: seq<byte>,
                                           right: seq<byte>)
    requires RefusesBackticks(reader) && Fenced(reader, raw, left, body, right)
    ensures Normalize(raw, JsonOrSingleFence, reader) == Read(reader, raw, left + body + right, Ranges(left, body))
  {
    WrappingIsFound(raw, left, body, right);
    WrappedIsNotJson(reader, raw, left, body, right);
  }

  lemma {:induction false} ActsOnNothingElse<V>(raw: seq<byte>, mode: Mode, reader: Reader<V>)
    requires mode.Strict? || forall left, body, right :: !Fenced(reader, raw, left, body, right)
    ensures Normalize(raw, mode, reader) == Read(reader, raw, raw, [])
  {
    if mode.JsonOrSingleFence? && Tokens(raw).Some? {
      FoundIsWrapping(raw);
      var (start, close) := Tokens(raw).value;
      assert !Fenced(reader, raw, raw[..start], raw[start + 8..close], raw[close + 3..]);
    }
  }

  /** A fence is taken off exactly when the text is one fenced JSON block, and then just the two fences go. */
  lemma {:induction false} NormalizeActsExactlyOnFences<V>(raw: seq<byte>, mode: Mode, reader: Reader<V>)
    requires RefusesBackticks(reader)
    ensures forall left, body, right :: mode.JsonOrSingleFence? && Fenced(reader, raw, left, body, right) ==>
      Normalize(raw, mode, reader) == Read(reader, raw, left + body + right, Ranges(left, body))
    ensures (mode.Strict? || forall left, body, right :: !Fenced(reader, raw, left, body, right)) ==>
      Normalize(raw, mode, reader) == Read(reader, raw, raw, [])
  {
    if mode.Strict? || forall left, body, right :: !Fenced(reader, raw, left, body, right) {
      ActsOnNothingElse(raw, mode, reader);
    }
    forall left, body, right | mode.JsonOrSingleFence? && Fenced(reader, raw, left, body, right)
      ensures Normalize(raw, mode, reader) == Read(reader, raw, left + body + right, Ranges(left, body)) {
      ActsOnFences(raw, reader, left, body, right);
    }
  }

  // ----- What it keeps -----

  predicate InBounds(text: seq<byte>, ranges: seq<(nat, nat)>) {
    && (forall i :: 0 <= i < |ranges| ==> ranges[i].0 <= ranges[i].1 <= |text|)
    && (forall i, j :: 0 <= i < j < |ranges| ==> ranges[i].1 <= ranges[j].0)
  }

  /** What is left of the text from a position on when the ranges are deleted. */
  function Kept(text: seq<byte>, ranges: seq<(nat, nat)>, from: nat): seq<byte>
    requires from <= |text| && InBounds(text, ranges) && (ranges != [] ==> from <= ranges[0].0)
    decreases |ranges|
  {
    if ranges == [] then text[from..]
    else text[from..ranges[0].0] + Kept(text, ranges[1..], ranges[0].1)
  }

  lemma {:induction false} WithoutFences(raw: seq<byte>, start: nat, close: nat)
    requires start + 8 <= close && close + 3 <= |raw|
    ensures var ranges := [(start, start + 8), (close, close + 3)];
      InBounds(raw, ranges) && Kept(raw, ranges, 0) == Unfenced(raw, start, close)
  {
    var second: seq<(nat, nat)> := [(close, close + 3)];
    assert second[1..] == [];
    assert Kept(raw, second, start + 8) == raw[start + 8..close] + raw[close + 3..];
    assert [(start, start + 8), (close, close + 3)][1..] == second;
  }

  ghost predicate TwoFences(raw: seq<byte>, removed: seq<(nat, nat)>, start: nat, close: nat) {
    && start + 8 <= close && close + 3 <= |raw| && removed == [(start, start + 8), (close, close + 3)]
    && Delimited(raw, start, close)
  }

  lemma {:induction false} ReadableIsNotWrapped<V>(reader: Reader<V>, text: seq<byte>)
    requires RefusesBackticks(reader) && reader.parse(text).Some?
    ensures forall left, body, right :: !Wraps(text, left, body, right)
  {
    forall left, body, right ensures !Wraps(text, left, body, right) {
      if Wraps(text, left, body, right) { WrappedIsNotJson(reader, text, left, body, right); }
    }
  }

  /** Nothing is removed, or exactly an opening fence of 8 bytes and after it a closing fence of 3, both inside the raw
      text; what remains is the text validated, byte for byte. */
  lemma {:induction false} RemovesTwoFencesOrNothing<V>(raw: seq<byte>, mode: Mode, reader: Reader<V>)
    ensures var out := Normalize(raw, mode, reader);
      && InBounds(raw, out.removed) && Kept(raw, out.removed, 0) == out.text
      && (out.removed == [] || exists start, close :: TwoFences(raw, out.removed, start, close))
  {
    var out := Normalize(raw, mode, reader);
    if out.removed != [] {
      var (start, close) := Tokens(raw).value;
      assert out.removed == [(start, start + 8), (close, close + 3)] && out.text == Unfenced(raw, start, close);
      WithoutFences(raw, start, close);
      assert TwoFences(raw, out.removed, start, close);
    } else {
      assert out.text == raw && Kept(raw, [], 0) == raw;
    }
  }

  /** A text from which fences were removed is not itself one fenced block. */
  lemma {:induction false} NoFenceRemains<V>(raw: seq<byte>, mode: Mode, reader: Reader<V>)
    requires RefusesBackticks(reader) && Normalize(raw, mode, reader).removed != []
    ensures forall left, body, right :: !Wraps(Normalize(raw, mode, reader).text, left, body, right)
  {
    ReadableIsNotWrapped(reader, Normalize(raw, mode, reader).text);
  }

  /** A block fenced twice is left alone: at most one wrapper is ever taken off. */
  lemma {:induction false} TwoWrappersStay<V>(raw: seq<byte>, mode: Mode, reader: Reader<V>, left: seq<byte>,
                                              body: seq<byte>, right: seq<byte>)
    requires RefusesBackticks(reader) && Wraps(raw, left, body, right)
    requires exists l, b, r :: Wraps(left + body + right, l, b, r)
    ensures Normalize(raw, mode, reader) == Normalized(Undecoded(raw), raw, [], Some(NotJson))
  {
    WrappedIsNotJson(reader, raw, left, body, right);
    WrappingIsFound(raw, left, body, right);
    var l, b, r :| Wraps(left + body + right, l, b, r);
    WrappedIsNotJson(reader, left + body + right, l, b, r);
  }

  /** The verdict on the text that was validated: it is JSON, the schema accepts it, and it can be written out again;
      the first of these that fails is the failure, and only a value that can be written out is kept as one, or a
      rejected one. */
  lemma {:induction false} VerdictIsExact<V(!new)>(raw: seq<byte>, mode: Mode, reader: Reader<V>)
    ensures var out := Normalize(raw, mode, reader);
      && (out.failure == Some(NotJson) <==> reader.parse(out.text) == None)
      && (out.failure == Some(Rejected) <==>
            exists v :: reader.parse(out.text) == Some(v) && !reader.accepts(v) && out.value == Parsed(v))
      && (out.failure == Some(NotEncodable) <==>
            exists v :: reader.parse(out.text) == Some(v) && reader.accepts(v) && !reader.encodable(v))
      && (out.failure == None <==>
            exists v :: reader.parse(out.text) == Some(v) && reader.accepts(v) && reader.encodable(v))
      && (out.failure == None ==> Some(out.value) == match reader.parse(out.text)
            case Some(v) => Some(Parsed(v)) case None => None)
      && (out.failure in {Some(NotJson), Some(NotEncodable)} ==> out.value == Undecoded(raw))
  {
    var out := Normalize(raw, mode, reader);
    if reader.parse(out.text).Some? {
      var v := reader.parse(out.text).value;
      assert reader.parse(out.text) == Some(v);
    }
  }

  /** Normalizing the validated text again changes nothing more. */
  lemma {:induction false} NormalizeIsIdempotent<V>(raw: seq<byte>, mode: Mode, reader: Reader<V>)
    ensures var out := Normalize(raw, mode, reader);
      var again := Normalize(out.text, mode, reader);
      && again.text == out.text && again.removed == [] && again.failure == out.failure
      && (out.value.Parsed? ==> again.value == out.value)
  {
  }

  /** The tolerant mode extends the strict one: whatever is JSON as it stands is read the same way, and the two modes
      part only where a fence is taken off a text the strict mode cannot read. */
  lemma {:induction false} ToleranceIsConservative<V>(raw: seq<byte>, reader: Reader<V>)
    ensures var (strict, lenient) := (Normalize(raw, Strict, reader), Normalize(raw, JsonOrSingleFence, reader));
      && (strict != lenient <==> lenient.removed != [])
      && (strict != lenient ==> strict.failure == Some(NotJson))
      && (strict.failure == None ==> lenient == strict)
  {
  }
}
