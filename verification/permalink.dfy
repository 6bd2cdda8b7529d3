/** The `#camera=lon,lat,height,heading,pitch,roll` permalink of
    permalink.js: `parseHash`, `buildHash`, and the input guard of
    `setCameraState`. Number text (`parseFloat`, `toFixed`, `String`) is
    left abstract: it is a record of functions every caller passes along. */
module Permalink {
  import opened Wrappers
  import opened Elementary

  // ---------------------------------------------------------------------------
  // Numbers and their text
  // ---------------------------------------------------------------------------

  /** A JavaScript number. `NaN` also stands for `undefined`, which every
      modelled use treats alike (both are falsy and both fail the guard). */
  datatype Number = NaN | Real(r: real)

  /** `parseFloat(text)`, `x.toFixed(digits)`, and `String(x)` as `join`
      writes an array element. */
  datatype NumberText = NumberText(parse: string -> Number, fixed: (Number, nat) -> string, show: Number -> string)

  /** `x || 0` on a number: NaN (and undefined) become 0. */
  function OrZero(n: Number): (r: Number)
    ensures r.Real?
    ensures n.Real? ==> r == n
    ensures n.NaN? ==> r == Real(0.0)
  {
    match n
    case NaN => Real(0.0)
    case Real(x) => if x == 0.0 then Real(0.0) else n
  }

  /** `Math.round(x)`: the integer nearest to `x`, halves rounded up. */
  function Round(x: real): (r: int)
    ensures r as real <= x + 0.5 < r as real + 1.0
  {
    (x + 0.5).Floor
  }

  /** `Math.round` on a number; `Math.round(NaN)` is NaN. */
  function RoundNumber(n: Number): (r: Number)
    ensures n.NaN? <==> r.NaN?
    ensures n.Real? ==> r.r == Round(n.r) as real
  {
    match n
    case NaN => NaN
    case Real(x) => Real(Round(x) as real)
  }

  // ---------------------------------------------------------------------------
  // Strings: `split`, `join` and `trim`
  // ---------------------------------------------------------------------------

  /** How many times `c` occurs in `s`. */
  function Count(s: string, c: char): nat
    decreases |s|
  {
    if |s| == 0 then 0 else (if s[0] == c then 1 else 0) + Count(s[1..], c)
  }

  /** `s.split(c)`: the maximal runs between separators, one more than there
      are separators, an empty string splitting into one empty part. */
  function Split(s: string, c: char): (parts: seq<string>)
    ensures |parts| == Count(s, c) + 1
    ensures forall i :: 0 <= i < |parts| ==> c !in parts[i]
    decreases |s|
  {
    if |s| == 0 then [""]
    else
      var rest := Split(s[1..], c);
      if s[0] == c then [""] + rest
      else [[s[0]] + rest[0]] + rest[1..]
  }

  /** `parts.join(c)`. */
  function Join(parts: seq<string>, c: char): string
    decreases |parts|
  {
    if |parts| == 0 then ""
    else if |parts| == 1 then parts[0]
    else parts[0] + [c] + Join(parts[1..], c)
  }

  /** Joining what a split produced gives the string back. */
  lemma {:induction false} JoinSplit(s: string, c: char)
    ensures Join(Split(s, c), c) == s
    decreases |s|
  {
    if |s| > 0 {
      var rest := Split(s[1..], c);
      JoinSplit(s[1..], c);
      if s[0] == c {
        assert Join([""] + rest, c) == [c] + Join(rest, c) by {
          assert ([""] + rest)[1..] == rest;
        }
        assert s == [c] + s[1..];
      } else {
        var parts := [[s[0]] + rest[0]] + rest[1..];
        assert parts[1..] == rest[1..];
        if |rest| == 1 {
          assert Join(parts, c) == [s[0]] + rest[0];
        } else {
          assert Join(rest, c) == rest[0] + [c] + Join(rest[1..], c);
          assert Join(parts, c) == [s[0]] + rest[0] + [c] + Join(rest[1..], c);
        }
        assert s == [s[0]] + s[1..];
      }
    }
  }

  /** Counting over a concatenation adds the counts of the two halves. */
  lemma {:induction false} CountAppend(a: string, b: string, c: char)
    ensures Count(a + b, c) == Count(a, c) + Count(b, c)
    decreases |a|
  {
    if |a| > 0 {
      CountAppend(a[1..], b, c);
      assert (a + b)[1..] == a[1..] + b;
    } else {
      assert a + b == b;
    }
  }

  /** Joining puts one separator between each pair of neighbouring parts, so
      the result holds at least one fewer separator than there are parts. */
  lemma {:induction false} JoinCount(parts: seq<string>, c: char)
    ensures Count(Join(parts, c), c) + 1 >= |parts|
    decreases |parts|
  {
    if |parts| > 1 {
      JoinCount(parts[1..], c);
      CountAppend(parts[0] + [c], Join(parts[1..], c), c);
      CountAppend(parts[0], [c], c);
    }
  }

  /** A string without the separator splits into itself alone. */
  lemma {:induction false} SplitNoSeparator(s: string, c: char)
    requires c !in s
    ensures Split(s, c) == [s]
    decreases |s|
  {
    if |s| > 0 {
      assert c !in s[1..];
      SplitNoSeparator(s[1..], c);
      assert s == [s[0]] + s[1..];
    }
  }

  /** A separator after a separator-free head splits the head off. */
  lemma {:induction false} SplitAtFirst(a: string, b: string, c: char)
    requires c !in a
    ensures Split(a + [c] + b, c) == [a] + Split(b, c)
    decreases |a|
  {
    var s := a + [c] + b;
    if |a| == 0 {
      assert s == [c] + b;
      assert s[1..] == b;
    } else {
      assert s[1..] == a[1..] + [c] + b;
      assert c !in a[1..];
      SplitAtFirst(a[1..], b, c);
      assert [a[0]] + a[1..] == a;
    }
  }

  /** Splitting what a join produced gives the parts back, provided no part
      contains the separator. */
  lemma {:induction false} SplitJoin(parts: seq<string>, c: char)
    requires |parts| >= 1
    requires forall i :: 0 <= i < |parts| ==> c !in parts[i]
    ensures Split(Join(parts, c), c) == parts
    decreases |parts|
  {
    if |parts| == 1 {
      SplitNoSeparator(parts[0], c);
    } else {
      SplitJoin(parts[1..], c);
      SplitAtFirst(parts[0], Join(parts[1..], c), c);
      assert [parts[0]] + parts[1..] == parts;
    }
  }

  /** The characters `String.prototype.trim` removes that the model knows:
      space, tab, the line terminators, vertical tab, form feed, no-break
      space and the byte order mark. */
  predicate IsSpace(ch: char) {
    ch == ' ' || ch == '\t' || ch == '\n' || ch == '\r' || ch == '\U{000B}' ||
    ch == '\U{000C}' || ch == '\U{00A0}' || ch == '\U{2028}' || ch == '\U{2029}' || ch == '\U{FEFF}'
  }

  /** Drops leading white space. */
  function TrimStart(s: string): (r: string)
    ensures |r| <= |s| && r == s[|s| - |r|..]
    ensures forall i :: 0 <= i < |s| - |r| ==> IsSpace(s[i])
    ensures |r| == 0 || !IsSpace(r[0])
    decreases |s|
  {
    if |s| > 0 && IsSpace(s[0]) then
      var r := TrimStart(s[1..]);
      assert forall i :: 1 <= i < |s| - |r| ==> s[i] == s[1..][i - 1];
      r
    else s
  }

  /** Drops trailing white space. */
  function TrimEnd(s: string): (r: string)
    ensures |r| <= |s| && r == s[..|r|]
    ensures forall i :: |r| <= i < |s| ==> IsSpace(s[i])
    ensures |r| == 0 || !IsSpace(r[|r| - 1])
    decreases |s|
  {
    if |s| > 0 && IsSpace(s[|s| - 1]) then
      var r := TrimEnd(s[..|s| - 1]);
      assert forall i :: |r| <= i < |s| - 1 ==> s[i] == s[..|s| - 1][i];
      r
    else s
  }

  /** `s.trim()`. */
  function Trim(s: string): string {
    TrimEnd(TrimStart(s))
  }

  /** True when `s` neither starts nor ends with white space. */
  predicate Trimmed(s: string) {
    |s| == 0 || (!IsSpace(s[0]) && !IsSpace(s[|s| - 1]))
  }

  /** Trimming keeps exactly the strings with no white space at either end,
      and what it returns is one of them. */
  lemma TrimFixesTrimmed(s: string)
    ensures Trimmed(Trim(s))
    ensures Trim(s) == s <==> Trimmed(s)
  {
    var a := TrimStart(s);
    var b := TrimEnd(a);
    if |b| > 0 {
      assert b[0] == a[0];
    }
    if Trimmed(s) {
      assert a == s;
    }
    if b == s && |s| > 0 {
      assert !IsSpace(b[0]);
    }
  }

  // ---------------------------------------------------------------------------
  // URLSearchParams
  // ---------------------------------------------------------------------------

  /** One `name=value` pair of a query string. */
  datatype Pair = Pair(name: string, value: string)

  /** The first index of `c` in `s`. */
  function IndexOf(s: string, c: char): (r: Option<nat>)
    ensures r.None? <==> c !in s
    ensures r.Some? ==> r.value < |s| && s[r.value] == c && c !in s[..r.value]
    decreases |s|
  {
    if |s| == 0 then None
    else if s[0] == c then Some(0)
    else match IndexOf(s[1..], c)
      case None => None
      case Some(i) =>
        assert s[..i + 1] == [s[0]] + s[1..][..i];
        Some(i + 1)
  }

  /** A `+` in a query string stands for a space. */
  function PlusToSpace(s: string): (r: string)
    ensures |r| == |s|
    ensures forall i :: 0 <= i < |s| ==> r[i] == (if s[i] == '+' then ' ' else s[i])
  {
    seq(|s|, i requires 0 <= i < |s| => if s[i] == '+' then ' ' else s[i])
  }

  /** One `&`-separated chunk: the name runs to the first `=`, the value is
      the rest; with no `=` the value is empty. */
  function ToPair(chunk: string): Pair {
    match IndexOf(chunk, '=')
    case None => Pair(PlusToSpace(chunk), "")
    case Some(i) => Pair(PlusToSpace(chunk[..i]), PlusToSpace(chunk[i + 1..]))
  }

  /** The pairs of the non-empty chunks, in order. */
  function Pairs(chunks: seq<string>): (r: seq<Pair>)
    ensures |r| <= |chunks|
    decreases |chunks|
  {
    if |chunks| == 0 then []
    else if chunks[0] == "" then Pairs(chunks[1..])
    else [ToPair(chunks[0])] + Pairs(chunks[1..])
  }

  /** `new URLSearchParams(s)`: a leading `?` is dropped and the rest split
      at `&`. Percent-escapes are not decoded in this model. */
  function Query(s: string): seq<Pair> {
    var body := if |s| > 0 && s[0] == '?' then s[1..] else s;
    Pairs(Split(body, '&'))
  }

  /** `params.get(name)`: the value of the first pair with that name, or
      `null`. */
  function Get(pairs: seq<Pair>, name: string): (r: Option<string>)
    ensures r.None? <==> forall i :: 0 <= i < |pairs| ==> pairs[i].name != name
    ensures r.Some? ==> exists i :: 0 <= i < |pairs| && pairs[i] == Pair(name, r.value) &&
                                    forall j :: 0 <= j < i ==> pairs[j].name != name
    decreases |pairs|
  {
    if |pairs| == 0 then None
    else if pairs[0].name == name then Some(pairs[0].value)
    else
      var r := Get(pairs[1..], name);
      assert r.Some? ==> exists i :: 0 <= i < |pairs| && pairs[i] == Pair(name, r.value) &&
                                     forall j :: 0 <= j < i ==> pairs[j].name != name by {
        if r.Some? {
          var i :| 0 <= i < |pairs[1..]| && pairs[1..][i] == Pair(name, r.value) &&
                   forall j :: 0 <= j < i ==> pairs[1..][j].name != name;
          assert pairs[i + 1] == Pair(name, r.value);
        }
      }
      r
  }

  // ---------------------------------------------------------------------------
  // parseHash
  // ---------------------------------------------------------------------------

  /** What `parseHash` returns: the six fields as `parseFloat` read them. */
  datatype CameraState = CameraState(lon: Number, lat: Number, height: Number, heading: Number, pitch: Number, roll: Number)

  /** One leading `#` is dropped, and only one. */
  function StripHash(h: string): (r: string)
    ensures |h| > 0 && h[0] == '#' ==> r == h[1..]
    ensures (|h| == 0 || h[0] != '#') ==> r == h
  {
    if |h| > 0 && h[0] == '#' then h[1..] else h
  }

  /** The `camera` parameter of the hash; an empty `hash` argument falls back
      to `window.location.hash`, passed in as `location`. */
  function CameraText(hash: string, location: string): Option<string> {
    var h := if hash == "" then location else hash;
    Get(Query(StripHash(h)), "camera")
  }

  /** The comma-separated parts of the `camera` parameter, trimmed. */
  function CameraParts(cam: string): (parts: seq<string>)
    ensures |parts| == Count(cam, ',') + 1
  {
    var raw := Split(cam, ',');
    seq(|raw|, i requires 0 <= i < |raw| => Trim(raw[i]))
  }

  /** `parseHash(hash)`: null without a non-empty `camera` parameter or with
      fewer than three parts, otherwise the fields, the missing trailing
      ones defaulting to 0. */
  function ParseHash(nt: NumberText, hash: string, location: string): (r: Option<CameraState>)
    ensures r.Some? <==> (var cam := CameraText(hash, location);
                          cam.Some? && cam.value != "" && Count(cam.value, ',') >= 2)
    ensures r.Some? ==> (var parts := CameraParts(CameraText(hash, location).value);
                         r.value.lon == nt.parse(parts[0]) && r.value.lat == nt.parse(parts[1]) &&
                         r.value.height == nt.parse(parts[2]))
    ensures r.Some? && Count(CameraText(hash, location).value, ',') == 2 ==>
              r.value.heading == Real(0.0) && r.value.pitch == Real(0.0) && r.value.roll == Real(0.0)
    ensures r.Some? ==> (var cam := CameraText(hash, location).value;
                         var k, parts := Count(cam, ','), CameraParts(cam);
                         (k < 3 ==> r.value.heading == Real(0.0)) &&
                         (k >= 3 ==> r.value.heading == nt.parse(parts[3])) &&
                         (k < 4 ==> r.value.pitch == Real(0.0)) &&
                         (k >= 4 ==> r.value.pitch == nt.parse(parts[4])) &&
                         (k < 5 ==> r.value.roll == Real(0.0)) &&
                         (k >= 5 ==> r.value.roll == nt.parse(parts[5])))
  {
    var cam := CameraText(hash, location);
    if cam.None? || cam.value == "" then None
    else
      var parts := CameraParts(cam.value);
      if |parts| < 3 then None
      else
        Some(CameraState(
          nt.parse(parts[0]), nt.parse(parts[1]), nt.parse(parts[2]),
          if |parts| > 3 then nt.parse(parts[3]) else Real(0.0),
          if |parts| > 4 then nt.parse(parts[4]) else Real(0.0),
          if |parts| > 5 then nt.parse(parts[5]) else Real(0.0)))
  }

  /** Only one leading `#` is stripped: prefixing a hash that does not start
      with `#` by one changes nothing. */
  lemma ParseHashStripsOne(nt: NumberText, h: string, location: string)
    requires h != "" && h[0] != '#'
    ensures ParseHash(nt, "#" + h, location) == ParseHash(nt, h, location)
  {
    assert ("#" + h)[1..] == h;
  }

  // ---------------------------------------------------------------------------
  // buildHash
  // ---------------------------------------------------------------------------

  /** The six texts `buildHash` joins: longitude and latitude to 6 decimals,
      the rounded height, and heading, pitch and roll to 3 decimals with a
      missing one written as 0. */
  function HashFields(nt: NumberText, s: CameraState): (fields: seq<string>)
    ensures |fields| == 6
  {
    [nt.fixed(s.lon, 6), nt.fixed(s.lat, 6), nt.show(RoundNumber(s.height)),
     nt.fixed(OrZero(s.heading), 3), nt.fixed(OrZero(s.pitch), 3), nt.fixed(OrZero(s.roll), 3)]
  }

  /** The prefix every permalink starts with. */
  const Prefix: string := "#camera="

  /** `buildHash(state)`. */
  function BuildHash(nt: NumberText, s: CameraState): (r: string)
    ensures |r| >= |Prefix| && r[..|Prefix|] == Prefix
    ensures Count(r[|Prefix|..], ',') >= 5
  {
    var body := Join(HashFields(nt, s), ',');
    JoinCount(HashFields(nt, s), ',');
    assert (Prefix + body)[|Prefix|..] == body;
    Prefix + body
  }

  /** A field text that survives the trip through the query string: no
      separator (`,` or `&`), no `+` (read back as a space), and no white
      space at either end (removed by `trim`). */
  predicate Clean(t: string) {
    ',' !in t && '&' !in t && '+' !in t && Trimmed(t)
  }

  /** `buildHash` writes exactly six comma-separated fields, each the text of
      its number, whenever those texts are clean. */
  lemma BuildHashFields(nt: NumberText, s: CameraState)
    requires forall i :: 0 <= i < 6 ==> Clean(HashFields(nt, s)[i])
    ensures Split(BuildHash(nt, s)[|Prefix|..], ',') == HashFields(nt, s)
  {
    var fields := HashFields(nt, s);
    assert (Prefix + Join(fields, ','))[|Prefix|..] == Join(fields, ',');
    SplitJoin(fields, ',');
  }

  /** The structural round trip: parsing a built permalink finds all six
      fields, each read back by `parseFloat` from exactly the text written
      for it, whenever those texts are clean. */
  lemma ParseBuild(nt: NumberText, s: CameraState, location: string)
    requires forall i :: 0 <= i < 6 ==> Clean(HashFields(nt, s)[i])
    ensures var f := HashFields(nt, s);
      ParseHash(nt, BuildHash(nt, s), location) ==
        Some(CameraState(nt.parse(f[0]), nt.parse(f[1]), nt.parse(f[2]),
                         nt.parse(f[3]), nt.parse(f[4]), nt.parse(f[5])))
  {
    var f := HashFields(nt, s);
    BuiltCameraText(nt, s, location);
    PartsOfJoin(f);
  }

  /** The `camera` parameter of a built permalink is the joined fields. */
  lemma BuiltCameraText(nt: NumberText, s: CameraState, location: string)
    requires forall i :: 0 <= i < 6 ==> Clean(HashFields(nt, s)[i])
    ensures CameraText(BuildHash(nt, s), location) == Some(Join(HashFields(nt, s), ','))
  {
    var f := HashFields(nt, s);
    var body := Join(f, ',');
    JoinAvoids(f, ',', '&');
    JoinAvoids(f, ',', '+');
    assert BuildHash(nt, s) == "#" + ("camera=" + body);
    assert StripHash("#" + ("camera=" + body)) == "camera=" + body;
    SingleCameraPair(body);
  }

  /** A query string `camera=<body>` with no `&` or `+` in the body has the
      body as its `camera` value. */
  lemma SingleCameraPair(body: string)
    requires '&' !in body && '+' !in body
    ensures Get(Query("camera=" + body), "camera") == Some(body)
  {
    var q := "camera=" + body;
    assert q[0] == 'c';
    assert '&' !in q;
    SplitNoSeparator(q, '&');
    assert Pairs([q]) == [ToPair(q)];
    CameraPair(body);
  }

  /** The chunk `camera=<body>` is the pair named `camera` with value
      `body` when the body holds no `+`. */
  lemma CameraPair(body: string)
    requires '+' !in body
    ensures ToPair("camera=" + body) == Pair("camera", body)
  {
    var q := "camera=" + body;
    FirstEquals(body);
    assert q[..6] == "camera";
    assert q[7..] == body;
    PlusFree("camera");
    PlusFree(body);
  }

  /** The first `=` of `camera=<body>` is the one after the name. */
  lemma FirstEquals(body: string)
    ensures IndexOf("camera=" + body, '=') == Some(6)
  {
    var q := "camera=" + body;
    assert q[6] == '=';
  }

  /** Six clean fields, joined with commas, come back from `CameraParts`. */
  lemma PartsOfJoin(f: seq<string>)
    requires |f| == 6 && forall i :: 0 <= i < 6 ==> Clean(f[i])
    ensures Join(f, ',') != "" && Count(Join(f, ','), ',') == 5
    ensures CameraParts(Join(f, ',')) == f
  {
    SplitJoin(f, ',');
    EmptySplit(',');
    var parts := CameraParts(Join(f, ','));
    forall i | 0 <= i < 6
      ensures parts[i] == f[i]
    {
      TrimFixesTrimmed(f[i]);
    }
  }

  /** The empty string splits into one empty part. */
  lemma EmptySplit(c: char)
    ensures Split("", c) == [""]
  {
  }

  /** A joined string holds no character other than the separator that no
      part holds. */
  lemma {:induction false} JoinAvoids(parts: seq<string>, c: char, d: char)
    requires c != d
    requires forall i :: 0 <= i < |parts| ==> d !in parts[i]
    ensures d !in Join(parts, c)
    decreases |parts|
  {
    if |parts| > 1 {
      JoinAvoids(parts[1..], c, d);
    }
  }

  /** Query decoding leaves a string without `+` alone. */
  lemma PlusFree(s: string)
    requires '+' !in s
    ensures PlusToSpace(s) == s
  {
  }

  // ---------------------------------------------------------------------------
  // setCameraState
  // ---------------------------------------------------------------------------

  /** The `setView` the camera receives: the destination and the
      orientation, all angles in radians. */
  datatype View = View(lon: real, lat: real, height: real, heading: real, pitch: real, roll: real)

  /** `setCameraState(state)`: nothing happens (`None`) for a null state or
      a NaN longitude, latitude or height; otherwise the camera is sent to
      the state, a NaN heading, pitch or roll counting as 0. */
  function SetCameraState(state: Option<CameraState>): (r: Option<View>)
    ensures r.None? <==> state.None? || state.value.lon.NaN? || state.value.lat.NaN? || state.value.height.NaN?
    ensures r.Some? ==> ToDeg(r.value.lon) == state.value.lon.r && ToDeg(r.value.lat) == state.value.lat.r &&
                        r.value.height == state.value.height.r
    ensures r.Some? ==> ToDeg(r.value.heading) == OrZero(state.value.heading).r &&
                        ToDeg(r.value.pitch) == OrZero(state.value.pitch).r &&
                        ToDeg(r.value.roll) == OrZero(state.value.roll).r
  {
    match state
    case None => None
    case Some(s) =>
      if s.lon.NaN? || s.lat.NaN? || s.height.NaN? then None
      else
        var v := View(ToRad(s.lon.r), ToRad(s.lat.r), s.height.r,
                      ToRad(OrZero(s.heading).r), ToRad(OrZero(s.pitch).r), ToRad(OrZero(s.roll).r));
        ToDegToRad(s.lon.r);
        ToDegToRad(s.lat.r);
        ToDegToRad(OrZero(s.heading).r);
        ToDegToRad(OrZero(s.pitch).r);
        ToDegToRad(OrZero(s.roll).r);
        Some(v)
  }

  /** Restoring a built permalink moves the camera whenever `parseFloat`
      reads numbers back from the longitude, latitude and height texts, and
      the camera goes to exactly the numbers read. */
  lemma RestoreBuiltHash(nt: NumberText, s: CameraState, location: string)
    requires forall i :: 0 <= i < 6 ==> Clean(HashFields(nt, s)[i])
    requires forall i :: 0 <= i < 3 ==> nt.parse(HashFields(nt, s)[i]).Real?
    ensures var v := SetCameraState(ParseHash(nt, BuildHash(nt, s), location));
      v.Some? && ToDeg(v.value.lon) == nt.parse(HashFields(nt, s)[0]).r &&
      ToDeg(v.value.lat) == nt.parse(HashFields(nt, s)[1]).r &&
      v.value.height == nt.parse(HashFields(nt, s)[2]).r
  {
    ParseBuild(nt, s, location);
  }
}
