/** The time-indexed metadata store (metadata.js, class `Metadata`): two
    parallel sequences, `timestamps` and `frames`, grown by `push` or rebuilt
    by `load`, and queried by a nearest-timestamp binary search. The class's
    mutable arrays become an immutable `Timeline` value; every operation
    returns the new value. */
module Timeline {
  import opened Wrappers
  import opened Js
  import Scalar
  import Pairings

  datatype Timeline = Timeline(timestamps: seq<real>, frames: seq<Record>)

  /** The empty store the constructor builds. */
  const Empty: Timeline := Timeline([], [])

  /** The frame's `"#ts"` when `typeof obj["#ts"] === "number"`. */
  function Stamp(obj: Record): (r: Option<real>)
    ensures r.Some? <==> IsNumber(Field(obj, "#ts"))
    ensures r.Some? ==> obj["#ts"] == Num(r.value)
  {
    match Field(obj, "#ts")
    case Num(n) => Some(n)
    case _ => None
  }

  ghost predicate Sorted(ts: seq<real>) {
    forall i, j :: 0 <= i < j < |ts| ==> ts[i] <= ts[j]
  }

  ghost predicate StrictlyIncreasing(ts: seq<real>) {
    forall i, j :: 0 <= i < j < |ts| ==> ts[i] < ts[j]
  }

  /** The representation invariant: the two arrays are parallel, each stored
      timestamp is its frame's own `"#ts"`, and time never goes backwards. */
  ghost predicate Valid(tl: Timeline) {
    && |tl.timestamps| == |tl.frames|
    && Sorted(tl.timestamps)
    && forall i :: 0 <= i < |tl.frames| ==> Stamp(tl.frames[i]) == Some(tl.timestamps[i])
  }

  /** `push(obj)` (metadata.js:196-208): append when the stamp is a number
      strictly after the last one, otherwise ignore the record silently. */
  function Push(tl: Timeline, obj: Record): (r: Timeline)
    ensures Stamp(obj).None? ==> r == tl
    ensures Stamp(obj).Some? && |tl.timestamps| > 0 && Stamp(obj).value <= tl.timestamps[|tl.timestamps| - 1]
            ==> r == tl
    ensures Stamp(obj).Some? && (|tl.timestamps| == 0 || tl.timestamps[|tl.timestamps| - 1] < Stamp(obj).value)
            ==> r.timestamps == tl.timestamps + [Stamp(obj).value] && r.frames == tl.frames + [obj]
    ensures Valid(tl) ==> Valid(r)
    ensures StrictlyIncreasing(tl.timestamps) ==> StrictlyIncreasing(r.timestamps)
  {
    match Stamp(obj)
    case None => tl
    case Some(ts) =>
      var len := |tl.timestamps|;
      if len > 0 && ts <= tl.timestamps[len - 1] then tl
      else Timeline(tl.timestamps + [ts], tl.frames + [obj])
  }

  /** Index `k` is a nearest entry to `t`: no stored timestamp is closer. */
  ghost predicate IsNearest(ts: seq<real>, t: real, k: int) {
    && 0 <= k < |ts|
    && forall j :: 0 <= j < |ts| ==> Scalar.Abs(ts[k] - t) <= Scalar.Abs(ts[j] - t)
  }

  /** The binary search of `get` (metadata.js:216-248) on the timestamp array.
      Exact hits are returned directly; otherwise the two entries bracketing
      `t` are compared and the lower one wins a tie. */
  method NearestIndex(ts: seq<real>, t: real) returns (k: nat)
    requires |ts| > 0
    ensures k < |ts|
    ensures Sorted(ts) ==> IsNearest(ts, t, k)
    ensures Sorted(ts) && t in ts ==> ts[k] == t
    ensures StrictlyIncreasing(ts) ==>
              forall j :: 0 <= j < k ==> Scalar.Abs(ts[j] - t) > Scalar.Abs(ts[k] - t)
    ensures Sorted(ts) && t <= ts[0] ==> ts[k] == ts[0]
    ensures Sorted(ts) && ts[|ts| - 1] <= t ==> ts[k] == ts[|ts| - 1]
  {
    var lo: int := 0;
    var hi: int := |ts| - 1;
    while lo <= hi
      invariant 0 <= lo <= |ts|
      invariant -1 <= hi < |ts|
      invariant lo <= hi + 1
      invariant Sorted(ts) ==> forall j :: 0 <= j < lo ==> ts[j] < t
      invariant Sorted(ts) ==> forall j :: hi < j < |ts| ==> t < ts[j]
      decreases hi - lo
    {
      var mid := (lo + hi) / 2;
      if ts[mid] == t {
        return mid;
      } else if ts[mid] < t {
        lo := mid + 1;
      } else {
        hi := mid - 1;
      }
    }
    var lowerIdx := if hi < 0 then 0 else hi;
    var upperIdx := if lo > |ts| - 1 then |ts| - 1 else lo;
    if Scalar.Abs(t - ts[lowerIdx]) <= Scalar.Abs(t - ts[upperIdx]) {
      k := lowerIdx;
    } else {
      k := upperIdx;
    }
  }

  /** `get(timestamp)` (metadata.js:216-248): `null` on an empty store,
      otherwise the frame of the nearest timestamp. */
  method Get(tl: Timeline, t: real) returns (r: Option<Record>)
    requires |tl.timestamps| == |tl.frames|
    ensures r.None? <==> |tl.timestamps| == 0
    ensures r.Some? ==> exists k :: 0 <= k < |tl.frames| && r.value == tl.frames[k]
    ensures r.Some? && Sorted(tl.timestamps) ==>
              exists k :: IsNearest(tl.timestamps, t, k) && r.value == tl.frames[k]
    ensures r.Some? && Valid(tl) && t in tl.timestamps ==> Stamp(r.value) == Some(t)
  {
    if |tl.timestamps| == 0 {
      return None;
    }
    var k := NearestIndex(tl.timestamps, t);
    r := Some(tl.frames[k]);
  }

  // ---------------------------------------------------------------------------
  // load
  // ---------------------------------------------------------------------------

  /** The lines of the metadata file that survive parsing and the
      `typeof obj["#ts"] === "number"` filter, in file order. A line that
      `JSON.parse` rejects is `None`. */
  function Kept(lines: seq<Option<Record>>): (r: seq<Record>)
    ensures forall i :: 0 <= i < |r| ==> Stamp(r[i]).Some?
    ensures forall rec :: rec in r <==> Some(rec) in lines && Stamp(rec).Some?
    ensures |r| <= |lines|
    ensures forall rec :: Stamp(rec).Some? ==> multiset(r)[rec] == multiset(lines)[Some(rec)]
  {
    if |lines| == 0 then []
    else
      var rest := Kept(lines[..|lines| - 1]);
      assert lines == lines[..|lines| - 1] + [lines[|lines| - 1]];
      match lines[|lines| - 1]
      case Some(rec) => if Stamp(rec).Some? then rest + [rec] else rest
      case None => rest
  }

  /** The filter keeps line order: one more line adds its record at the
      end exactly when it parses with a stamp. */
  lemma KeptAppend(lines: seq<Option<Record>>, l: Option<Record>)
    ensures Kept(lines + [l]) == Kept(lines) + (if l.Some? && Stamp(l.value).Some? then [l.value] else [])
  {
    assert (lines + [l])[..|lines|] == lines;
  }

  /** One entry of `combined` (metadata.js:184): a timestamp with its frame. */
  type Entry = (real, Record)

  ghost predicate SortedEntries(s: seq<Entry>) {
    forall i, j :: 0 <= i < j < |s| ==> s[i].0 <= s[j].0
  }

  /** Insert `e` after every entry whose timestamp is not greater, the step
      of a stable ascending sort. */
  function Insert(e: Entry, s: seq<Entry>): (r: seq<Entry>)
    requires SortedEntries(s)
    ensures SortedEntries(r)
    ensures multiset(r) == multiset(s) + multiset{e}
  {
    if |s| == 0 then [e]
    else if s[|s| - 1].0 <= e.0 then s + [e]
    else
      var init := s[..|s| - 1];
      var last := s[|s| - 1];
      var front := Insert(e, init);
      assert s == init + [last];
      forall i | 0 <= i < |front|
        ensures front[i].0 <= last.0
      {
        assert front[i] in multiset(init) + multiset{e};
      }
      front + [last]
  }

  /** `combined.sort((a, b) => a[0] - b[0])` (metadata.js:185): a stable
      ascending sort by timestamp. */
  function SortEntries(s: seq<Entry>): (r: seq<Entry>)
    ensures SortedEntries(r)
    ensures multiset(r) == multiset(s)
  {
    if |s| == 0 then []
    else
      assert s == s[..|s| - 1] + [s[|s| - 1]];
      Insert(s[|s| - 1], SortEntries(s[..|s| - 1]))
  }

  /** The pairs `[t, frame]` built from the kept records (metadata.js:174-176, 184). */
  function Combine(recs: seq<Record>): (r: seq<Entry>)
    requires forall i :: 0 <= i < |recs| ==> Stamp(recs[i]).Some?
    ensures |r| == |recs|
    ensures forall i :: 0 <= i < |r| ==> r[i] == (Stamp(recs[i]).value, recs[i])
  {
    seq(|recs|, i requires 0 <= i < |recs| => (Stamp(recs[i]).value, recs[i]))
  }

  /** Split the sorted pairs back into the two parallel arrays (metadata.js:186-187). */
  function Split(s: seq<Entry>): (r: Timeline)
    ensures |r.timestamps| == |s| && |r.frames| == |s|
    ensures forall i :: 0 <= i < |s| ==> r.timestamps[i] == s[i].0 && r.frames[i] == s[i].1
  {
    Timeline(seq(|s|, i requires 0 <= i < |s| => s[i].0), seq(|s|, i requires 0 <= i < |s| => s[i].1))
  }

  /** `load` (metadata.js:166-187) over the already-parsed lines of the file:
      drop unparsable and unstamped records, then sort by stamp. */
  function Load(lines: seq<Option<Record>>): (r: Timeline)
    ensures Valid(r)
    ensures multiset(r.frames) == multiset(Kept(lines))
    ensures forall rec :: rec in r.frames <==> Some(rec) in lines && Stamp(rec).Some?
  {
    var kept := Kept(lines);
    var combined := Combine(kept);
    var sorted := SortEntries(combined);
    var tl := Split(sorted);
    LoadFacts(kept, combined, sorted, tl);
    tl
  }

  /** The pairs survive the sort intact, so each timestamp stays next to its
      own frame and the frames are a permutation of the kept records. */
  lemma LoadFacts(kept: seq<Record>, combined: seq<Entry>, sorted: seq<Entry>, tl: Timeline)
    requires forall i :: 0 <= i < |kept| ==> Stamp(kept[i]).Some?
    requires combined == Combine(kept)
    requires SortedEntries(sorted) && multiset(sorted) == multiset(combined)
    requires tl == Split(sorted)
    ensures Valid(tl)
    ensures multiset(tl.frames) == multiset(kept)
    ensures forall rec :: rec in tl.frames <==> rec in kept
  {
    PairsStayTogether(kept, combined, sorted);
    SecondsPermute(sorted, combined);
    assert tl.frames == Seconds(sorted);
    assert kept == Seconds(combined);
    forall rec
      ensures rec in tl.frames <==> rec in kept
    {
      assert rec in tl.frames <==> rec in multiset(tl.frames);
      assert rec in kept <==> rec in multiset(kept);
    }
  }

  lemma PairsStayTogether(kept: seq<Record>, combined: seq<Entry>, sorted: seq<Entry>)
    requires forall i :: 0 <= i < |kept| ==> Stamp(kept[i]).Some?
    requires combined == Combine(kept)
    requires multiset(sorted) == multiset(combined)
    ensures forall i :: 0 <= i < |sorted| ==> Stamp(sorted[i].1) == Some(sorted[i].0)
  {
    forall i | 0 <= i < |sorted|
      ensures Stamp(sorted[i].1) == Some(sorted[i].0)
    {
      assert sorted[i] in multiset(combined);
      var j :| 0 <= j < |combined| && combined[j] == sorted[i];
    }
  }

  function Seconds(s: seq<Entry>): (r: seq<Record>)
    ensures |r| == |s|
    ensures forall i :: 0 <= i < |s| ==> r[i] == s[i].1
  {
    seq(|s|, i requires 0 <= i < |s| => s[i].1)
  }

  /** Projecting the frames out of two permutations of pairs gives two
      permutations of frames. */
  lemma {:induction false} SecondsPermute(a: seq<Entry>, b: seq<Entry>)
    requires multiset(a) == multiset(b)
    ensures multiset(Seconds(a)) == multiset(Seconds(b))
    decreases |a|
  {
    if |a| == 0 {
      assert |b| == |multiset(b)| == 0;
    } else {
      var x := a[|a| - 1];
      var a' := a[..|a| - 1];
      assert x in multiset(b);
      var j :| 0 <= j < |b| && b[j] == x;
      var b' := b[..j] + b[j + 1..];
      RemoveAt(a, b, j);
      SecondsPermute(a', b');
      SecondsRemoveAt(b, j);
      assert Seconds(a) == Seconds(a') + [x.1];
    }
  }

  lemma RemoveAt(a: seq<Entry>, b: seq<Entry>, j: int)
    requires |a| > 0 && 0 <= j < |b| && b[j] == a[|a| - 1]
    requires multiset(a) == multiset(b)
    ensures multiset(a[..|a| - 1]) == multiset(b[..j] + b[j + 1..])
  {
    var x := a[|a| - 1];
    assert a == a[..|a| - 1] + [x];
    assert b == b[..j] + [x] + b[j + 1..];
    calc {
      multiset(a[..|a| - 1]);
      multiset(a) - multiset{x};
      multiset(b) - multiset{x};
      multiset(b[..j]) + multiset(b[j + 1..]);
      multiset(b[..j] + b[j + 1..]);
    }
  }

  lemma SecondsRemoveAt(b: seq<Entry>, j: int)
    requires 0 <= j < |b|
    ensures multiset(Seconds(b)) == multiset(Seconds(b[..j] + b[j + 1..])) + multiset{b[j].1}
  {
    var sb := Seconds(b);
    assert sb == sb[..j] + [b[j].1] + sb[j + 1..];
    assert Seconds(b[..j] + b[j + 1..]) == sb[..j] + sb[j + 1..];
  }

  // ---------------------------------------------------------------------------
  // getLDS
  // ---------------------------------------------------------------------------

  /** The renaming loop of `getLDS` (metadata.js:255-260) over the first `n`
      table entries: every frame key that the table knows is copied under its
      table name; a later entry with the same name overwrites an earlier one. */
  function Rename(frame: Record, table: seq<(string, string)>, n: nat): (r: map<string, Value>)
    requires n <= |table|
    ensures forall name :: name in r <==>
              exists i :: 0 <= i < n && table[i].0 in frame && table[i].1 == name
  {
    if n == 0 then map[]
    else
      var m := Rename(frame, table, n - 1);
      var (key, name) := table[n - 1];
      if key in frame then m[name := frame[key]] else m
  }

  /** No entry after `i` among the first `n` both names a key of the frame
      and reuses entry `i`'s name, so nothing overwrites what entry `i`
      copied. */
  predicate LastWithName(frame: Record, table: seq<(string, string)>, n: nat, i: nat)
    requires i < n <= |table|
  {
    forall j :: i < j < n && table[j].0 in frame ==> table[j].1 != table[i].1
  }

  /** A renamed key holds the value of the last table entry that produced
      its name: later entries overwrite earlier ones. */
  lemma {:induction false} RenameLastWins(frame: Record, table: seq<(string, string)>, n: nat, i: nat)
    requires i < n <= |table| && table[i].0 in frame && LastWithName(frame, table, n, i)
    ensures table[i].1 in Rename(frame, table, n)
    ensures Rename(frame, table, n)[table[i].1] == frame[table[i].0]
  {
    if i < n - 1 {
      assert LastWithName(frame, table, n - 1, i);
      RenameLastWins(frame, table, n - 1, i);
      assert table[n - 1].0 in frame ==> table[n - 1].1 != table[i].1;
    }
  }

  /** `getLDS(timestamp)` (metadata.js:250-262): the LAST stored frame,
      whatever `timestamp` is, renamed through the pairings table; `null` on
      an empty store. */
  function GetLds(tl: Timeline, timestamp: real): (r: Option<map<string, Value>>)
    ensures r.None? <==> |tl.frames| == 0
    ensures r.Some? ==> r.value == Rename(tl.frames[|tl.frames| - 1], Pairings.Table, |Pairings.Table|)
  {
    if |tl.frames| == 0 then None
    else Some(Rename(tl.frames[|tl.frames| - 1], Pairings.Table, |Pairings.Table|))
  }

  /** The store only ever holds the frames pushed into it, oldest first. */
  lemma {:induction false} PushAllKeepsIncreasing(tl: Timeline, objs: seq<Record>)
    requires Valid(tl) && StrictlyIncreasing(tl.timestamps)
    ensures Valid(PushAll(tl, objs)) && StrictlyIncreasing(PushAll(tl, objs).timestamps)
    ensures forall f :: f in PushAll(tl, objs).frames ==> f in tl.frames || f in objs
    decreases |objs|
  {
    if |objs| > 0 {
      var tl' := Push(tl, objs[0]);
      PushAllKeepsIncreasing(tl', objs[1..]);
      forall f | f in PushAll(tl, objs).frames
        ensures f in tl.frames || f in objs
      {
        assert f in tl'.frames || f in objs[1..];
      }
    }
  }

  /** A run of `push` calls. */
  function PushAll(tl: Timeline, objs: seq<Record>): Timeline
    decreases |objs|
  {
    if |objs| == 0 then tl else PushAll(Push(tl, objs[0]), objs[1..])
  }
}
