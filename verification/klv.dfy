/** The KLV packet parser `parse_klv_local_sets` (misc.py:132-180; the copy
    in backend/misc.py:3-51 is byte-identical). A byte stream is split into
    key-length-value triplets as in SMPTE ST 336: a 16-byte universal key, a
    length field in the BER form of section 8.1.3 of ITU-T X.690, and the
    value. Each value is read as a simplified MISB ST 0601 local set of
    one-byte tags with one-byte lengths. */
module Klv {
  import opened Wrappers

  type Byte = b: int | 0 <= b < 256
  type Bytes = seq<Byte>

  /** One decoded local set: tag byte to value bytes (Python `dict[bytes, bytes]`
      whose keys are single bytes). */
  type LocalSet = map<Byte, Bytes>

  /** Size of the universal key that opens every triplet. */
  const KeyLength: nat := 16

  /** A triplet is only started while this many bytes remain: the key, the
      first length byte, and one more byte. */
  const MinRemaining: nat := 18

  // ---------------------------------------------------------------------------
  // Big-endian integers and the BER length field
  // ---------------------------------------------------------------------------

  function Pow256(n: nat): (r: nat)
    ensures r >= 1
  {
    if n == 0 then 1 else 256 * Pow256(n - 1)
  }

  /** `int.from_bytes(bs, "big")`. */
  function BigEndian(bs: Bytes): nat {
    if |bs| == 0 then 0 else BigEndian(bs[..|bs| - 1]) * 256 + bs[|bs| - 1]
  }

  /** A `w`-byte big-endian number is below 256^w. */
  lemma {:induction false} BigEndianBound(bs: Bytes)
    ensures BigEndian(bs) < Pow256(|bs|)
  {
    if |bs| > 0 {
      BigEndianBound(bs[..|bs| - 1]);
    }
  }

  /** The `w`-byte big-endian spelling of `n`; the inverse of `BigEndian`. */
  function ToBigEndian(n: nat, w: nat): (r: Bytes)
    requires n < Pow256(w)
    ensures |r| == w
    ensures BigEndian(r) == n
  {
    if w == 0 then []
    else
      var r := ToBigEndian(n / 256, w - 1) + [n % 256];
      assert r[..|r| - 1] == ToBigEndian(n / 256, w - 1);
      r
  }

  /** The fewest bytes that hold `n` big-endian. */
  function MinWidth(n: nat): (w: nat)
    ensures n < Pow256(w)
    ensures n > 0 ==> w > 0
  {
    if n == 0 then 0 else 1 + MinWidth(n / 256)
  }

  /** The length field that starts at `pos` (misc.py:147-157): a byte below
      0x80 is the length itself (short form); otherwise its low seven bits
      count the big-endian length bytes that follow (long form). Returns the
      length and the position just after the field, or `None` when the length
      bytes run past the buffer. For a byte `b`, `b & 0x80` is `b >= 0x80`
      and, once `b >= 0x80`, `b & 0x7F` is `b - 0x80`. */
  function DecodeLength(raw: Bytes, pos: nat): (r: Option<(nat, nat)>)
    requires pos < |raw|
    ensures r.Some? ==> pos < r.value.1 <= |raw|
  {
    var lengthByte := raw[pos];
    if lengthByte >= 0x80 then
      var n := lengthByte - 0x80;
      if pos + 1 + n > |raw| then None
      else Some((BigEndian(raw[pos + 1..pos + 1 + n]), pos + 1 + n))
    else
      Some((lengthByte as nat, pos + 1))
  }

  /** The BER length field a KLV writer would emit: short form below 0x80,
      otherwise the long form with the fewest length bytes. */
  function EncodeLength(n: nat): (r: Bytes)
    requires MinWidth(n) < 0x80
    ensures |r| > 0
    ensures n < 0x80 ==> r == [n]
    ensures n >= 0x80 ==> r[0] == 0x80 + MinWidth(n) && |r| == 1 + MinWidth(n)
  {
    if n < 0x80 then [n] else [0x80 + MinWidth(n)] + ToBigEndian(n, MinWidth(n))
  }

  /** `x` occurs in `raw` starting at `pos`, stated byte by byte so that a
      proof only looks at as many bytes as it needs. */
  ghost predicate At(raw: Bytes, pos: nat, x: Bytes)
    decreases |x|
  {
    pos + |x| <= |raw| && (|x| == 0 || (raw[pos] == x[0] && At(raw, pos + 1, x[1..])))
  }

  lemma {:induction false} AtSlice(raw: Bytes, pos: nat, x: Bytes)
    ensures At(raw, pos, x) <==> pos + |x| <= |raw| && raw[pos..pos + |x|] == x
    decreases |x|
  {
    if |x| > 0 && pos + |x| <= |raw| {
      AtSlice(raw, pos + 1, x[1..]);
      if raw[pos..pos + |x|] == x {
        assert raw[pos + 1..pos + |x|] == x[1..];
      }
      if raw[pos] == x[0] && raw[pos + 1..pos + |x|] == x[1..] {
        assert raw[pos..pos + |x|] == [x[0]] + x[1..];
      }
    }
  }

  lemma AtWhole(x: Bytes)
    ensures At(x, 0, x)
  {
    AtSlice(x, 0, x);
    assert x[0..|x|] == x;
  }

  lemma AtSplit(raw: Bytes, pos: nat, x: Bytes, y: Bytes)
    requires At(raw, pos, x + y)
    ensures At(raw, pos, x) && At(raw, pos + |x|, y)
  {
    AtSlice(raw, pos, x + y);
    AtSlice(raw, pos, x);
    AtSlice(raw, pos + |x|, y);
    assert raw[pos..pos + |x|] == (x + y)[..|x|];
    assert raw[pos + |x|..pos + |x| + |y|] == (x + y)[|x|..];
  }

  /** `field` is a complete length field for `n`: decoding it on its own
      uses all of its bytes and gives `n`. */
  ghost predicate LengthField(field: Bytes, n: nat) {
    |field| > 0 && DecodeLength(field, 0) == Some((n, |field|))
  }

  /** A long-form field is a length field for the value of its digits. */
  lemma LongFormField(digits: Bytes)
    requires |digits| < 0x80
    ensures LengthField([0x80 + |digits|] + digits, BigEndian(digits))
  {
    var field := [0x80 + |digits|] + digits;
    assert field[1..] == digits;
    LongDecode(field);
  }

  /** A buffer that is exactly one long-form field decodes to its digits. */
  lemma LongDecode(field: Bytes)
    requires |field| > 0 && field[0] >= 0x80 && |field| == 1 + (field[0] - 0x80)
    ensures DecodeLength(field, 0) == Some((BigEndian(field[1..]), |field|))
  {
    assert field[1..1 + (field[0] - 0x80)] == field[1..];
  }

  /** The writer's field is a length field for the length it encodes. */
  lemma EncodeLengthIsField(n: nat)
    requires MinWidth(n) < 0x80
    ensures LengthField(EncodeLength(n), n)
  {
    if n >= 0x80 {
      LongFormField(ToBigEndian(n, MinWidth(n)));
    }
  }

  /** A length field decodes the same wherever it sits in a buffer. */
  lemma FieldAt(raw: Bytes, pos: nat, field: Bytes, n: nat)
    requires LengthField(field, n) && At(raw, pos, field)
    ensures DecodeLength(raw, pos) == Some((n, pos + |field|))
  {
    AtSlice(raw, pos, field);
    assert raw[pos] == field[0];
    if field[0] >= 0x80 {
      var k := field[0] - 0x80;
      assert raw[pos + 1..pos + 1 + k] == field[1..1 + k];
    }
  }

  /** A long-form field 0x80 (no length bytes) decodes to length 0. */
  lemma EmptyLongForm(raw: Bytes, pos: nat)
    requires pos < |raw| && raw[pos] == 0x80
    ensures DecodeLength(raw, pos) == Some((0, pos + 1))
  {
    assert raw[pos + 1..pos + 1] == [];
  }

  // ---------------------------------------------------------------------------
  // Local sets
  // ---------------------------------------------------------------------------

  /** The inner loop (misc.py:166-176) from index `i` of the value bytes `v`:
      each entry is a tag byte, a length byte and that many value bytes; an
      entry that does not fit ends the loop; a repeated tag overwrites. */
  function LocalSetFrom(v: Bytes, i: nat, acc: LocalSet): (r: LocalSet)
    requires i <= |v|
    decreases |v| - i
  {
    if i + 2 > |v| then acc
    else
      var tag := v[i];
      var stop := i + 2 + v[i + 1] as nat;
      if stop > |v| then acc
      else LocalSetFrom(v, stop, acc[tag := v[i + 2..stop]])
  }

  function LocalSetOf(v: Bytes): LocalSet {
    LocalSetFrom(v, 0, map[])
  }

  /** A tag/value pair whose value fits the one-byte length. */
  ghost predicate EntryFits(e: (Byte, Bytes)) {
    |e.1| < 256
  }

  /** The bytes of one entry: tag, length, value. */
  function EncodeEntry(e: (Byte, Bytes)): (r: Bytes)
    requires EntryFits(e)
    ensures |r| == 2 + |e.1|
  {
    var len: Byte := |e.1|;
    [e.0, len] + e.1
  }

  function EncodeEntries(es: seq<(Byte, Bytes)>): Bytes
    requires forall i :: 0 <= i < |es| ==> EntryFits(es[i])
  {
    if |es| == 0 then [] else EncodeEntry(es[0]) + EncodeEntries(es[1..])
  }

  /** Storing the entries in order, a later tag overwriting an earlier one. */
  function Overlay(acc: LocalSet, es: seq<(Byte, Bytes)>): LocalSet
    decreases |es|
  {
    if |es| == 0 then acc else Overlay(acc[es[0].0 := es[0].1], es[1..])
  }

  /** Bytes that cannot start a complete entry: fewer than two bytes, or a
      length byte that runs past the end. */
  predicate TruncatedEntry(t: Bytes) {
    |t| < 2 || 2 + t[1] as nat > |t|
  }

  /** An entry at `i` is stored, and reading resumes right after it. */
  lemma EntryStep(v: Bytes, i: nat, e: (Byte, Bytes), acc: LocalSet)
    requires EntryFits(e) && At(v, i, EncodeEntry(e))
    ensures LocalSetFrom(v, i, acc) == LocalSetFrom(v, i + |EncodeEntry(e)|, acc[e.0 := e.1])
  {
    var len: Byte := |e.1|;
    AtSplit(v, i, [e.0, len], e.1);
    AtSlice(v, i + 2, e.1);
    assert v[i] == e.0 && v[i + 1] == len;
  }

  /** A truncated entry ends the inner loop (misc.py:172-173). */
  lemma EntriesStop(v: Bytes, j: nat, acc: LocalSet)
    requires j <= |v| && TruncatedEntry(v[j..])
    ensures LocalSetFrom(v, j, acc) == acc
  {
    if j + 2 <= |v| {
      assert v[j..][1] == v[j + 1];
    }
  }

  /** Round trip of the inner loop: encoded entries, followed by at most a
      truncated entry, decode to the entries stored in order. */
  lemma {:induction false} LocalSetRoundTrip(v: Bytes, i: nat, es: seq<(Byte, Bytes)>, acc: LocalSet)
    requires forall k :: 0 <= k < |es| ==> EntryFits(es[k])
    requires At(v, i, EncodeEntries(es)) && TruncatedEntry(v[i + |EncodeEntries(es)|..])
    ensures LocalSetFrom(v, i, acc) == Overlay(acc, es)
    decreases |es|
  {
    AtSlice(v, i, EncodeEntries(es));
    if |es| == 0 {
      EntriesStop(v, i, acc);
    } else {
      var e := es[0];
      var mid := i + |EncodeEntry(e)|;
      AtSplit(v, i, EncodeEntry(e), EncodeEntries(es[1..]));
      EntryStep(v, i, e, acc);
      assert mid + |EncodeEntries(es[1..])| == i + |EncodeEntries(es)|;
      LocalSetRoundTrip(v, mid, es[1..], acc[e.0 := e.1]);
    }
  }

  /** A tag that occurs twice in one value keeps its later value (misc.py:175). */
  lemma LaterTagWins(tag: Byte, first: Bytes, second: Bytes)
    requires |first| < 256 && |second| < 256
    ensures LocalSetOf([tag, |first|] + first + [tag, |second|] + second) == map[tag := second]
  {
    var es: seq<(Byte, Bytes)> := [(tag, first), (tag, second)];
    var none: seq<(Byte, Bytes)> := [];
    var v := [tag, |first|] + first + [tag, |second|] + second;
    assert es[1..][1..] == none;
    assert EncodeEntries(es[1..]) == EncodeEntry((tag, second)) + EncodeEntries(none);
    assert EncodeEntries(es) == EncodeEntry((tag, first)) + EncodeEntries(es[1..]);
    assert EncodeEntries(es) == v;
    AtWhole(v);
    LocalSetRoundTrip(v, 0, es, map[]);
    assert Overlay(map[], es) == Overlay(map[tag := first], es[1..]);
    assert Overlay(map[tag := first], es[1..]) == Overlay(map[tag := first][tag := second], none);
  }

  // ---------------------------------------------------------------------------
  // Triplets
  // ---------------------------------------------------------------------------

  /** The value span of the triplet whose key starts at `cursor`
      (misc.py:142-164): the key is skipped without being checked, the length
      field is decoded, and the value must fit in the buffer. */
  function TripletAt(raw: Bytes, cursor: nat): (r: Option<(nat, nat)>)
    requires cursor + MinRemaining <= |raw|
    ensures r.Some? ==> cursor + KeyLength < r.value.0 <= r.value.1 <= |raw|
  {
    match DecodeLength(raw, cursor + KeyLength)
    case None => None
    case Some((len, start)) =>
      if start + len > |raw| then None else Some((start, start + len))
  }

  /** The outer loop (misc.py:141-178) from `cursor`, reduced to the value
      bytes of each complete triplet it reads: a short tail, overrunning
      length bytes or an overrunning value end the loop with what was
      already read. */
  function ValuesFrom(raw: Bytes, cursor: nat): (r: seq<Bytes>)
    requires cursor <= |raw|
    ensures 17 * |r| <= |raw| - cursor
    decreases |raw| - cursor
  {
    if cursor + MinRemaining > |raw| then []
    else
      match TripletAt(raw, cursor)
      case None => []
      case Some((start, end)) => [raw[start..end]] + ValuesFrom(raw, end)
  }

  /** Each value read as a local set, in order (misc.py:178). */
  function Sets(vs: seq<Bytes>): (r: seq<LocalSet>)
    ensures |r| == |vs|
  {
    seq(|vs|, i requires 0 <= i < |vs| => LocalSetOf(vs[i]))
  }

  /** `parse_klv_local_sets(raw)`. */
  function Parse(raw: Bytes): (r: seq<LocalSet>)
    ensures 17 * |r| <= |raw|
  {
    Sets(ValuesFrom(raw, 0))
  }

  /** A triplet as it appears on the wire. */
  datatype Triplet = Triplet(key: Bytes, field: Bytes, value: Bytes)

  /** A well-formed triplet: a 16-byte key, a length field that decodes to
      the length of the value, and a value of at least one byte. The field
      may use any BER form, minimal or not. */
  ghost predicate WellFormed(t: Triplet) {
    |t.key| == KeyLength && LengthField(t.field, |t.value|) && |t.value| > 0
  }

  function Encode(t: Triplet): Bytes {
    t.key + t.field + t.value
  }

  function EncodeAll(ts: seq<Triplet>): Bytes {
    if |ts| == 0 then [] else Encode(ts[0]) + EncodeAll(ts[1..])
  }

  /** The triplet a KLV writer emits for `value` under `key`. */
  function Write(key: Bytes, value: Bytes): (t: Triplet)
    requires |key| == KeyLength && 0 < |value| && MinWidth(|value|) < 0x80
    ensures WellFormed(t)
    ensures t.key == key && t.value == value
  {
    EncodeLengthIsField(|value|);
    Triplet(key, EncodeLength(|value|), value)
  }

  /** The values of a sequence of triplets. */
  function ValuesOf(ts: seq<Triplet>): (r: seq<Bytes>)
    ensures |r| == |ts|
  {
    if |ts| == 0 then [] else [ts[0].value] + ValuesOf(ts[1..])
  }

  /** A well-formed triplet at the cursor is found by `TripletAt`, and its
      value span holds the triplet's value. */
  lemma TripletFound(raw: Bytes, c: nat, t: Triplet)
    requires WellFormed(t) && At(raw, c, Encode(t))
    ensures c + MinRemaining <= |raw|
    ensures TripletAt(raw, c) == Some((c + |Encode(t)| - |t.value|, c + |Encode(t)|))
    ensures raw[c + |Encode(t)| - |t.value|..c + |Encode(t)|] == t.value
  {
    AtSplit(raw, c, t.key + t.field, t.value);
    AtSplit(raw, c, t.key, t.field);
    AtSlice(raw, c + KeyLength + |t.field|, t.value);
    FieldAt(raw, c + KeyLength, t.field, |t.value|);
  }

  /** A triplet found at the cursor contributes its value, and reading
      resumes at its end. */
  lemma ValuesStep(raw: Bytes, c: nat, start: nat, end: nat)
    requires c + MinRemaining <= |raw| && TripletAt(raw, c) == Some((start, end))
    ensures ValuesFrom(raw, c) == [raw[start..end]] + ValuesFrom(raw, end)
  {
  }

  /** Reading from `c` finds the values of `ts` one after another and then
      stops at `end`. */
  ghost predicate Reads(raw: Bytes, c: nat, ts: seq<Triplet>, end: nat)
    decreases |ts|
  {
    c <= |raw| &&
    if |ts| == 0 then end == c
    else
      c + MinRemaining <= |raw| &&
      match TripletAt(raw, c)
      case None => false
      case Some((start, stop)) => raw[start..stop] == ts[0].value && Reads(raw, stop, ts[1..], end)
  }

  /** The first of several encoded triplets is found where it starts, and
      the rest of the encoding follows it. */
  lemma FirstFound(raw: Bytes, c: nat, ts: seq<Triplet>)
    requires |ts| > 0 && WellFormed(ts[0]) && At(raw, c, EncodeAll(ts))
    ensures c + MinRemaining <= |raw|
    ensures TripletAt(raw, c) == Some((c + |Encode(ts[0])| - |ts[0].value|, c + |Encode(ts[0])|))
    ensures raw[c + |Encode(ts[0])| - |ts[0].value|..c + |Encode(ts[0])|] == ts[0].value
    ensures At(raw, c + |Encode(ts[0])|, EncodeAll(ts[1..]))
    ensures c + |Encode(ts[0])| + |EncodeAll(ts[1..])| == c + |EncodeAll(ts)|
  {
    AtSplit(raw, c, Encode(ts[0]), EncodeAll(ts[1..]));
    TripletFound(raw, c, ts[0]);
  }

  /** Encoded well-formed triplets found at `c` are read back in order,
      ending right after their encoding. */
  lemma {:induction false} EncodedAreRead(raw: Bytes, c: nat, ts: seq<Triplet>)
    requires forall i :: 0 <= i < |ts| ==> WellFormed(ts[i])
    requires At(raw, c, EncodeAll(ts))
    ensures Reads(raw, c, ts, c + |EncodeAll(ts)|)
    decreases |ts|
  {
    if |ts| > 0 {
      FirstFound(raw, c, ts);
      EncodedAreRead(raw, c + |Encode(ts[0])|, ts[1..]);
    }
  }

  /** Round trip of the outer loop: triplets read from the cursor contribute
      their values, in order, followed by whatever the bytes after them
      yield. With an incomplete trailing triplet this is the "stop and
      return what was parsed so far" behaviour. */
  lemma {:induction false} TripletsRoundTrip(raw: Bytes, c: nat, ts: seq<Triplet>, end: nat)
    requires Reads(raw, c, ts, end)
    ensures end <= |raw|
    ensures ValuesFrom(raw, c) == ValuesOf(ts) + ValuesFrom(raw, end)
    decreases |ts|
  {
    if |ts| > 0 {
      var (start, stop) := TripletAt(raw, c).value;
      ValuesStep(raw, c, start, stop);
      TripletsRoundTrip(raw, stop, ts[1..], end);
      Assemble(ValuesFrom(raw, c), ts[0].value, ValuesFrom(raw, stop), ValuesOf(ts[1..]), ValuesFrom(raw, end), ValuesOf(ts));
    }
  }

  lemma Assemble<T>(whole: seq<T>, x: T, rest: seq<T>, front: seq<T>, later: seq<T>, all: seq<T>)
    requires whole == [x] + rest && rest == front + later && all == [x] + front
    ensures whole == all + later
  {
  }

  /** A buffer that reads as `ts` up to its end yields exactly their values. */
  lemma ReadsAll(raw: Bytes, ts: seq<Triplet>)
    requires Reads(raw, 0, ts, |raw|)
    ensures ValuesFrom(raw, 0) == ValuesOf(ts)
  {
    TripletsRoundTrip(raw, 0, ts, |raw|);
    ShortTailIgnored(raw, |raw|);
    var none: seq<Bytes> := [];
    assert ValuesOf(ts) + none == ValuesOf(ts);
  }

  lemma EncodedReads(ts: seq<Triplet>)
    requires forall i :: 0 <= i < |ts| ==> WellFormed(ts[i])
    ensures Reads(EncodeAll(ts), 0, ts, |EncodeAll(ts)|)
  {
    var raw := EncodeAll(ts);
    AtWhole(raw);
    EncodedAreRead(raw, 0, ts);
    assert 0 + |raw| == |raw|;
  }

  /** Encoded well-formed triplets alone read back as their values. */
  lemma EncodedValues(ts: seq<Triplet>)
    requires forall i :: 0 <= i < |ts| ==> WellFormed(ts[i])
    ensures ValuesFrom(EncodeAll(ts), 0) == ValuesOf(ts)
  {
    EncodedReads(ts);
    ReadsAll(EncodeAll(ts), ts);
  }

  /** Encoded triplets alone parse back to one local set per triplet, each
      the local set of that triplet's value. */
  lemma EncodeThenParse(ts: seq<Triplet>)
    requires forall i :: 0 <= i < |ts| ==> WellFormed(ts[i])
    ensures |Parse(EncodeAll(ts))| == |ts|
    ensures forall i :: 0 <= i < |ts| ==> Parse(EncodeAll(ts))[i] == LocalSetOf(ts[i].value)
  {
    EncodedValues(ts);
    ValuesOfIndex(ts);
  }

  lemma {:induction false} ValuesOfIndex(ts: seq<Triplet>)
    ensures forall i :: 0 <= i < |ts| ==> ValuesOf(ts)[i] == ts[i].value
  {
    if |ts| > 0 {
      ValuesOfIndex(ts[1..]);
    }
  }

  /** Fewer than 18 remaining bytes never start a triplet (misc.py:141). */
  lemma ShortTailIgnored(raw: Bytes, cursor: nat)
    requires cursor <= |raw| < cursor + MinRemaining
    ensures ValuesFrom(raw, cursor) == []
  {
  }

  /** The 18-byte threshold also drops a complete final triplet whose value
      is empty: key plus a zero length byte is only 17 bytes. */
  lemma EmptyFinalTripletDropped(key: Bytes)
    requires |key| == KeyLength
    ensures Parse(key + [0]) == []
  {
  }

  /** One dict is appended per complete triplet even when no entry fits, and
      the key's bytes play no part (misc.py:142, misc.py:178). */
  lemma UnvalidatedKeyGivesEmptySet(key: Bytes, b: Byte)
    requires |key| == KeyLength
    ensures Parse(key + [1, b]) == [map[]]
  {
    var raw := key + [1, b];
    assert raw[KeyLength] == 1;
    assert TripletAt(raw, 0) == Some((KeyLength + 1, KeyLength + 2));
    assert ValuesFrom(raw, KeyLength + 2) == [];
  }

  /** A long-form field whose length bytes run past the buffer ends the
      parse (misc.py:152-153). */
  lemma OverrunningLengthStops(key: Bytes, n: nat, tail: Bytes)
    requires |key| == KeyLength && 0 < n < 0x80 && 1 <= |tail| < n
    ensures Parse(key + [0x80 + n] + tail) == []
  {
    var raw := key + [0x80 + n] + tail;
    assert raw[KeyLength] == 0x80 + n;
  }

  /** A value longer than the bytes that remain ends the parse
      (misc.py:159-161). */
  lemma OverrunningValueStops(key: Bytes, len: Byte, value: Bytes)
    requires |key| == KeyLength && len < 0x80 && 1 <= |value| < len
    ensures Parse(key + [len] + value) == []
  {
    var raw := key + [len] + value;
    assert raw[KeyLength] == len;
  }

  // ---------------------------------------------------------------------------
  // The loops as written
  // ---------------------------------------------------------------------------

  /** The inner `while` of `parse_klv_local_sets` (misc.py:166-176). */
  method ReadLocalSet(value: Bytes) returns (tags: LocalSet)
    ensures tags == LocalSetOf(value)
    ensures forall t :: t in tags ==> |tags[t]| < 256
  {
    tags := map[];
    var i := 0;
    while i + 2 <= |value|
      invariant 0 <= i <= |value|
      invariant LocalSetFrom(value, i, tags) == LocalSetOf(value)
      invariant forall t :: t in tags ==> |tags[t]| < 256
      decreases |value| - i
    {
      var tag := value[i];
      var length := value[i + 1];
      var start := i + 2;
      var stop := start + length as nat;
      if stop > |value| {
        break;
      }
      tags := tags[tag := value[start..stop]];
      i := stop;
    }
  }

  /** One pass of the outer loop of `parse_klv_local_sets` up to the value
      (misc.py:142-161): skip the key, read the length field, and check that
      the value fits. The check `cursor >= total_len` right after the key
      (misc.py:145) can never fire, since 18 bytes remained, and is not
      repeated here. */
  method ReadTriplet(raw: Bytes, c: nat) returns (r: Option<(nat, nat)>)
    requires c + MinRemaining <= |raw|
    ensures r == TripletAt(raw, c)
  {
    var totalLen := |raw|;
    var cursor := c + 16;
    var lengthByte := raw[cursor];
    cursor := cursor + 1;
    var totalLength: nat;
    if lengthByte >= 0x80 {
      var n := lengthByte - 0x80;
      if cursor + n > totalLen {
        return None;
      }
      totalLength := BigEndian(raw[cursor..cursor + n]);
      cursor := cursor + n;
    } else {
      totalLength := lengthByte;
    }
    var end := cursor + totalLength;
    if end > totalLen {
      return None;
    }
    return Some((cursor, end));
  }

  /** `parse_klv_local_sets(raw)` (misc.py:132-180): the cursor grows by
      16 + 1 + n + length on every pass, so the loop ends. */
  method ParseLocalSets(raw: Bytes) returns (packets: seq<LocalSet>)
    ensures packets == Parse(raw)
    ensures 17 * |packets| <= |raw|
  {
    packets := [];
    ghost var values: seq<Bytes> := [];
    var cursor := 0;
    while cursor + 18 <= |raw|
      invariant 0 <= cursor <= |raw|
      invariant values + ValuesFrom(raw, cursor) == ValuesFrom(raw, 0)
      invariant packets == Sets(values)
      decreases |raw| - cursor
    {
      var span := ReadTriplet(raw, cursor);
      if span.None? {
        ValuesStop(raw, cursor);
        break;
      }
      var (start, end) := span.value;
      var valueBytes := raw[start..end];
      var tags := ReadLocalSet(valueBytes);
      NextValue(raw, cursor, values, start, end);
      values := values + [valueBytes];
      packets := packets + [tags];
      cursor := end;
    }
    assert values == ValuesFrom(raw, 0);
  }

  /** A triplet that is not found ends the loop. */
  lemma ValuesStop(raw: Bytes, c: nat)
    requires c + MinRemaining <= |raw| && TripletAt(raw, c).None?
    ensures ValuesFrom(raw, c) == []
  {
  }

  lemma NextValue(raw: Bytes, c: nat, values: seq<Bytes>, start: nat, end: nat)
    requires c + MinRemaining <= |raw| && TripletAt(raw, c) == Some((start, end))
    requires values + ValuesFrom(raw, c) == ValuesFrom(raw, 0)
    ensures (values + [raw[start..end]]) + ValuesFrom(raw, end) == ValuesFrom(raw, 0)
  {
    ValuesStep(raw, c, start, end);
  }
}
