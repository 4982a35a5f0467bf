/** Merging the three-level access maps of all requests (src/util/OrderedStaticMap.hpp:98-179): applications, chunks,
    offsets. The merged offsets of one chunk are what the collision verifier sweeps. */
module AccessMaps {
  import opened Access
  import CollisionSweep

  /** One key with its value; a map is a list of entries in the order of their keys. */
  datatype Entry<V> = Entry(key: int, value: V)

  type Offsets = seq<Entry<Block>>
  type Chunks = seq<Entry<Offsets>>
  type Apps = seq<Entry<Chunks>>

  // ---------- the two merges ----------

  /** Where values are maps, entries with equal keys become one. */
  function Merged<V>(l: seq<Entry<V>>, r: seq<Entry<V>>, both: (V, V) -> V): seq<Entry<V>>
    decreases |l| + |r|
  {
    if l == [] then r
    else if r == [] then l
    else if l[0].key == r[0].key then [Entry(l[0].key, both(l[0].value, r[0].value))] + Merged(l[1..], r[1..], both)
    else if l[0].key < r[0].key then [l[0]] + Merged(l[1..], r, both)
    else [r[0]] + Merged(l, r[1..], both)
  }

  /** Where values are blocks, both entries stay, the lesser block first. */
  function MergedOffsets(l: Offsets, r: Offsets): Offsets
    decreases |l| + |r|
  {
    if l == [] then r
    else if r == [] then l
    else if l[0].key < r[0].key || (l[0].key == r[0].key && BlockLess(l[0].value, r[0].value)) then
      [l[0]] + MergedOffsets(l[1..], r)
    else [r[0]] + MergedOffsets(l, r[1..])
  }

  function MergedChunks(l: Chunks, r: Chunks): Chunks {
    Merged(l, r, MergedOffsets)
  }

  function MergedApps(l: Apps, r: Apps): Apps {
    Merged(l, r, MergedChunks)
  }

  // ---------- order ----------

  predicate Before(x: Entry<Block>, y: Entry<Block>) {
    x.key < y.key || (x.key == y.key && BlockLess(x.value, y.value))
  }

  predicate NoneBefore(e: Entry<Block>, s: Offsets) {
    forall i :: 0 <= i < |s| ==> !Before(s[i], e)
  }

  /** By offset, then by block order. */
  predicate OffsetsOrdered(s: Offsets) {
    s == [] || (NoneBefore(s[0], s[1..]) && OffsetsOrdered(s[1..]))
  }

  predicate KeysAbove<V>(k: int, s: seq<Entry<V>>) {
    forall i :: 0 <= i < |s| ==> k < s[i].key
  }

  /** Unique ascending keys. */
  predicate Ascending<V>(s: seq<Entry<V>>) {
    s == [] || (KeysAbove(s[0].key, s[1..]) && Ascending(s[1..]))
  }

  predicate AllValues<V>(s: seq<Entry<V>>, good: V -> bool) {
    forall i :: 0 <= i < |s| ==> good(s[i].value)
  }

  predicate ChunksOrdered(s: Chunks) {
    Ascending(s) && AllValues(s, OffsetsOrdered)
  }

  predicate AppsOrdered(s: Apps) {
    Ascending(s) && AllValues(s, ChunksOrdered)
  }

  lemma {:induction false} NoneBeforeTrans(e: Entry<Block>, s: Offsets)
    requires s != [] && !Before(s[0], e) && NoneBefore(s[0], s[1..])
    ensures NoneBefore(e, s)
  {
    forall i | 0 <= i < |s|
      ensures !Before(s[i], e)
    {
      if i > 0 {
        assert s[i] == s[1..][i - 1];
      }
    }
  }

  lemma {:induction false} MergedNoneBefore(e: Entry<Block>, l: Offsets, r: Offsets)
    requires NoneBefore(e, l) && NoneBefore(e, r)
    ensures NoneBefore(e, MergedOffsets(l, r))
    decreases |l| + |r|
  {
    if l != [] && r != [] {
      if Before(l[0], r[0]) {
        MergedNoneBefore(e, l[1..], r);
      } else {
        MergedNoneBefore(e, l, r[1..]);
      }
    }
  }

  lemma {:induction false} MergedOffsetsOrdered(l: Offsets, r: Offsets)
    requires OffsetsOrdered(l) && OffsetsOrdered(r)
    ensures OffsetsOrdered(MergedOffsets(l, r))
    decreases |l| + |r|
  {
    if l != [] && r != [] {
      var m := MergedOffsets(l, r);
      if Before(l[0], r[0]) {
        MergedOffsetsOrdered(l[1..], r);
        NoneBeforeTrans(l[0], r);
        MergedNoneBefore(l[0], l[1..], r);
        assert m[1..] == MergedOffsets(l[1..], r);
      } else {
        MergedOffsetsOrdered(l, r[1..]);
        NoneBeforeTrans(r[0], l);
        MergedNoneBefore(r[0], l, r[1..]);
        assert m[1..] == MergedOffsets(l, r[1..]);
      }
    }
  }

  lemma {:induction false} MergedKeysAbove<V>(k: int, l: seq<Entry<V>>, r: seq<Entry<V>>, both: (V, V) -> V)
    requires KeysAbove(k, l) && KeysAbove(k, r)
    ensures KeysAbove(k, Merged(l, r, both))
    decreases |l| + |r|
  {
    if l != [] && r != [] {
      if l[0].key == r[0].key {
        MergedKeysAbove(k, l[1..], r[1..], both);
      } else if l[0].key < r[0].key {
        MergedKeysAbove(k, l[1..], r, both);
      } else {
        MergedKeysAbove(k, l, r[1..], both);
      }
    }
  }

  lemma {:induction false} AboveTrans<V>(k: int, s: seq<Entry<V>>)
    requires s != [] && k < s[0].key && KeysAbove(s[0].key, s[1..])
    ensures KeysAbove(k, s)
  {
    forall i | 0 <= i < |s|
      ensures k < s[i].key
    {
      if i > 0 {
        assert s[i] == s[1..][i - 1];
      }
    }
  }

  lemma {:induction false} MergedAscending<V>(l: seq<Entry<V>>, r: seq<Entry<V>>, both: (V, V) -> V)
    requires Ascending(l) && Ascending(r)
    ensures Ascending(Merged(l, r, both))
    decreases |l| + |r|
  {
    if l != [] && r != [] {
      var m := Merged(l, r, both);
      if l[0].key == r[0].key {
        MergedAscending(l[1..], r[1..], both);
        MergedKeysAbove(l[0].key, l[1..], r[1..], both);
        assert m[1..] == Merged(l[1..], r[1..], both);
      } else if l[0].key < r[0].key {
        MergedAscending(l[1..], r, both);
        AboveTrans(l[0].key, r);
        MergedKeysAbove(l[0].key, l[1..], r, both);
        assert m[1..] == Merged(l[1..], r, both);
      } else {
        MergedAscending(l, r[1..], both);
        AboveTrans(r[0].key, l);
        MergedKeysAbove(r[0].key, l, r[1..], both);
        assert m[1..] == Merged(l, r[1..], both);
      }
    }
  }

  lemma {:induction false} MergedValues<V(!new)>(l: seq<Entry<V>>, r: seq<Entry<V>>, both: (V, V) -> V, good: V -> bool)
    requires AllValues(l, good) && AllValues(r, good)
    requires forall a, b :: good(a) && good(b) ==> good(both(a, b))
    ensures AllValues(Merged(l, r, both), good)
    decreases |l| + |r|
  {
    if l != [] && r != [] {
      if l[0].key == r[0].key {
        MergedValues(l[1..], r[1..], both, good);
      } else if l[0].key < r[0].key {
        MergedValues(l[1..], r, both, good);
      } else {
        MergedValues(l, r[1..], both, good);
      }
    }
  }

  lemma {:induction false} MergedChunksOrdered(l: Chunks, r: Chunks)
    requires ChunksOrdered(l) && ChunksOrdered(r)
    ensures ChunksOrdered(MergedChunks(l, r))
  {
    forall a, b | OffsetsOrdered(a) && OffsetsOrdered(b)
      ensures OffsetsOrdered(MergedOffsets(a, b))
    {
      MergedOffsetsOrdered(a, b);
    }
    MergedValues(l, r, MergedOffsets, OffsetsOrdered);
    MergedAscending(l, r, MergedOffsets);
  }

  lemma {:induction false} MergedAppsOrdered(l: Apps, r: Apps)
    requires AppsOrdered(l) && AppsOrdered(r)
    ensures AppsOrdered(MergedApps(l, r))
  {
    forall a, b | ChunksOrdered(a) && ChunksOrdered(b)
      ensures ChunksOrdered(MergedChunks(a, b))
    {
      MergedChunksOrdered(a, b);
    }
    MergedValues(l, r, MergedChunks, ChunksOrdered);
    MergedAscending(l, r, MergedChunks);
  }

  // ---------- contents ----------

  /** Everything below a map, given what is below each entry. */
  ghost function Gathered<V(!new)>(s: seq<Entry<V>>, below: (int, V) -> multiset<Declared>): multiset<Declared> {
    if s == [] then multiset{} else below(s[0].key, s[0].value) + Gathered(s[1..], below)
  }

  ghost function InOffsets(app: int, chunk: int, s: Offsets): multiset<Declared> {
    Gathered(s, (offset: int, b: Block) => multiset{Declared(ChunkId(app, chunk), offset, b)})
  }

  ghost function InChunks(app: int, s: Chunks): multiset<Declared> {
    Gathered(s, (chunk: int, o: Offsets) => InOffsets(app, chunk, o))
  }

  /** All declarations of a map: application, chunk, offset and block. */
  ghost function InApps(s: Apps): multiset<Declared> {
    Gathered(s, (app: int, c: Chunks) => InChunks(app, c))
  }

  lemma {:induction false} MergedGathers<V(!new)>(l: seq<Entry<V>>, r: seq<Entry<V>>, both: (V, V) -> V,
                                                  below: (int, V) -> multiset<Declared>)
    requires forall k, a, b :: below(k, both(a, b)) == below(k, a) + below(k, b)
    ensures Gathered(Merged(l, r, both), below) == Gathered(l, below) + Gathered(r, below)
    decreases |l| + |r|
  {
    if l != [] && r != [] {
      var m := Merged(l, r, both);
      if l[0].key == r[0].key {
        assert m[1..] == Merged(l[1..], r[1..], both);
        MergedGathers(l[1..], r[1..], both, below);
      } else if l[0].key < r[0].key {
        assert m[1..] == Merged(l[1..], r, both);
        MergedGathers(l[1..], r, both, below);
      } else {
        assert m[1..] == Merged(l, r[1..], both);
        MergedGathers(l, r[1..], both, below);
      }
    }
  }

  lemma {:induction false} MergedOffsetsGathers(l: Offsets, r: Offsets, below: (int, Block) -> multiset<Declared>)
    ensures Gathered(MergedOffsets(l, r), below) == Gathered(l, below) + Gathered(r, below)
    decreases |l| + |r|
  {
    if l != [] && r != [] {
      var m := MergedOffsets(l, r);
      if Before(l[0], r[0]) {
        assert m[1..] == MergedOffsets(l[1..], r);
        MergedOffsetsGathers(l[1..], r, below);
      } else {
        assert m[1..] == MergedOffsets(l, r[1..]);
        MergedOffsetsGathers(l, r[1..], below);
      }
    }
  }

  lemma {:induction false} MergedChunksContents(app: int, l: Chunks, r: Chunks)
    ensures InChunks(app, MergedChunks(l, r)) == InChunks(app, l) + InChunks(app, r)
  {
    var below := (chunk: int, o: Offsets) => InOffsets(app, chunk, o);
    forall k, a, b
      ensures below(k, MergedOffsets(a, b)) == below(k, a) + below(k, b)
    {
      MergedOffsetsGathers(a, b, (offset: int, d: Block) => multiset{Declared(ChunkId(app, k), offset, d)});
    }
    MergedGathers(l, r, MergedOffsets, below);
  }

  /** Merging neither loses nor invents a declaration. */
  lemma {:induction false} MergedAppsContents(l: Apps, r: Apps)
    ensures InApps(MergedApps(l, r)) == InApps(l) + InApps(r)
  {
    var below := (app: int, c: Chunks) => InChunks(app, c);
    forall k, a, b
      ensures below(k, MergedChunks(a, b)) == below(k, a) + below(k, b)
    {
      MergedChunksContents(k, a, b);
    }
    MergedGathers(l, r, MergedChunks, below);
  }

  // ---------- the loops ----------

  /** The next entry of the merge. */
  /** What remains to be merged completes the result to the whole. */
  ghost predicate OffsetsLeft(result: Offsets, l: Offsets, i: nat, r: Offsets, j: nat, whole: Offsets)
    requires i <= |l| && j <= |r|
  {
    result + MergedOffsets(l[i..], r[j..]) == whole
  }

  lemma {:induction false} NextOffset(l: Offsets, i: nat, r: Offsets, j: nat)
    requires i <= |l| && j <= |r| && (i < |l| || j < |r|)
    ensures MergedOffsets(l[i..], r[j..]) ==
            if i < |l| && (j == |r| || Before(l[i], r[j])) then [l[i]] + MergedOffsets(l[i + 1..], r[j..])
            else [r[j]] + MergedOffsets(l[i..], r[j + 1..])
  {
    assert i < |l| ==> l[i..][1..] == l[i + 1..];
    assert j < |r| ==> r[j..][1..] == r[j + 1..];
  }

  lemma {:induction false} Regroup(a: Offsets, e: Entry<Block>, b: Offsets)
    ensures a + ([e] + b) == (a + [e]) + b
  {
  }

  lemma {:induction false} TakeOffset(result: Offsets, l: Offsets, i: nat, r: Offsets, j: nat, whole: Offsets)
    requires i <= |l| && j <= |r| && (i < |l| || j < |r|) && OffsetsLeft(result, l, i, r, j, whole)
    ensures if i < |l| && (j == |r| || Before(l[i], r[j])) then OffsetsLeft(result + [l[i]], l, i + 1, r, j, whole)
            else OffsetsLeft(result + [r[j]], l, i, r, j + 1, whole)
  {
    NextOffset(l, i, r, j);
    hide MergedOffsets, Before;
    if i < |l| && (j == |r| || Before(l[i], r[j])) {
      Regroup(result, l[i], MergedOffsets(l[i + 1..], r[j..]));
    } else {
      Regroup(result, r[j], MergedOffsets(l[i..], r[j + 1..]));
    }
  }

  lemma {:induction false} AllOffsetsLeft(l: Offsets, r: Offsets)
    ensures OffsetsLeft([], l, 0, r, 0, MergedOffsets(l, r))
  {
    assert l[0..] == l && r[0..] == r;
  }

  lemma {:induction false} NoOffsetsLeft(result: Offsets, l: Offsets, r: Offsets, whole: Offsets)
    requires OffsetsLeft(result, l, |l|, r, |r|, whole)
    ensures result == whole
  {
  }

  /** `operator|` on maps from offsets to blocks. */
  method MergeOffsets(l: Offsets, r: Offsets) returns (result: Offsets)
    ensures result == MergedOffsets(l, r)
  {
    hide MergedOffsets, OffsetsLeft;
    AllOffsetsLeft(l, r);
    var i, j := 0, 0;
    result := [];
    while i < |l| || j < |r|
      invariant 0 <= i <= |l| && 0 <= j <= |r|
      invariant OffsetsLeft(result, l, i, r, j, MergedOffsets(l, r))
      decreases |l| - i + |r| - j
    {
      TakeOffset(result, l, i, r, j, MergedOffsets(l, r));
      if i < |l| && j < |r| {
        if l[i].key == r[j].key {
          if BlockLess(l[i].value, r[j].value) {
            result, i := result + [l[i]], i + 1;
          } else {
            result, j := result + [r[j]], j + 1;
          }
        } else if l[i].key < r[j].key {
          result, i := result + [l[i]], i + 1;
        } else {
          result, j := result + [r[j]], j + 1;
        }
      } else if i < |l| {
        result, i := result + [l[i]], i + 1;
      } else {
        result, j := result + [r[j]], j + 1;
      }
    }
    NoOffsetsLeft(result, l, r, MergedOffsets(l, r));
  }

  /** The same where values are maps. */
  ghost predicate Left<V(!new)>(result: seq<Entry<V>>, l: seq<Entry<V>>, i: nat, r: seq<Entry<V>>, j: nat,
                         both: (V, V) -> V,
                                whole: seq<Entry<V>>)
    requires i <= |l| && j <= |r|
  {
    result + Merged(l[i..], r[j..], both) == whole
  }

  lemma {:induction false} StartsLeft<V(!new)>(l: seq<Entry<V>>, r: seq<Entry<V>>, both: (V, V) -> V)
    ensures Left([], l, 0, r, 0, both, Merged(l, r, both))
  {
    assert l[0..] == l && r[0..] == r;
  }

  lemma {:induction false} NothingLeft<V(!new)>(result: seq<Entry<V>>, l: seq<Entry<V>>, r: seq<Entry<V>>,
                                         both: (V, V) -> V,
                                                whole: seq<Entry<V>>)
    requires Left(result, l, |l|, r, |r|, both, whole)
    ensures result == whole
  {
  }

  /** The next entry of the merge of maps of maps. */
  lemma {:induction false} TakeEntry<V(!new)>(result: seq<Entry<V>>, l: seq<Entry<V>>, i: nat, r: seq<Entry<V>>, j: nat,
                                              both: (V, V) -> V, whole: seq<Entry<V>>)
    requires i <= |l| && j <= |r| && (i < |l| || j < |r|) && Left(result, l, i, r, j, both, whole)
    ensures if i < |l| && (j == |r| || l[i].key < r[j].key) then Left(result + [l[i]], l, i + 1, r, j, both, whole)
            else if i == |l| || r[j].key < l[i].key then Left(result + [r[j]], l, i, r, j + 1, both, whole)
            else Left(result + [Entry(l[i].key, both(l[i].value, r[j].value))], l, i + 1, r, j + 1, both, whole)
  {
    assert i < |l| ==> l[i..][1..] == l[i + 1..];
    assert j < |r| ==> r[j..][1..] == r[j + 1..];
  }

  /** `operator|` on maps whose values are maps. */
  method MergeChunks(l: Chunks, r: Chunks) returns (result: Chunks)
    ensures result == MergedChunks(l, r)
  {
    hide Merged, Left, MergedOffsets;
    var i, j := 0, 0;
    result := [];
    StartsLeft(l, r, MergedOffsets);
    while i < |l| || j < |r|
      invariant 0 <= i <= |l| && 0 <= j <= |r|
      invariant Left(result, l, i, r, j, MergedOffsets, MergedChunks(l, r))
      decreases |l| - i + |r| - j
    {
      TakeEntry(result, l, i, r, j, MergedOffsets, MergedChunks(l, r));
      if i < |l| && j < |r| {
        if l[i].key == r[j].key {
          var value := MergeOffsets(l[i].value, r[j].value);
          result := result + [Entry(l[i].key, value)];
          i, j := i + 1, j + 1;
        } else if l[i].key < r[j].key {
          result, i := result + [l[i]], i + 1;
        } else {
          result, j := result + [r[j]], j + 1;
        }
      } else if i < |l| {
        result, i := result + [l[i]], i + 1;
      } else {
        result, j := result + [r[j]], j + 1;
      }
    }
    NothingLeft(result, l, r, MergedOffsets, MergedChunks(l, r));
  }

  /** `operator|` on whole access maps. */
  method MergeApps(l: Apps, r: Apps) returns (result: Apps)
    ensures result == MergedApps(l, r)
  {
    hide Merged, Left, MergedChunks;
    var i, j := 0, 0;
    result := [];
    StartsLeft(l, r, MergedChunks);
    while i < |l| || j < |r|
      invariant 0 <= i <= |l| && 0 <= j <= |r|
      invariant Left(result, l, i, r, j, MergedChunks, MergedApps(l, r))
      decreases |l| - i + |r| - j
    {
      TakeEntry(result, l, i, r, j, MergedChunks, MergedApps(l, r));
      if i < |l| && j < |r| {
        if l[i].key == r[j].key {
          var value := MergeChunks(l[i].value, r[j].value);
          result := result + [Entry(l[i].key, value)];
          i, j := i + 1, j + 1;
        } else if l[i].key < r[j].key {
          result, i := result + [l[i]], i + 1;
        } else {
          result, j := result + [r[j]], j + 1;
        }
      } else if i < |l| {
        result, i := result + [l[i]], i + 1;
      } else {
        result, j := result + [r[j]], j + 1;
      }
    }
    NothingLeft(result, l, r, MergedChunks, MergedApps(l, r));
  }

  /** The maps from begin to end, merged in halves. */
  function MergedInterval(maps: seq<Apps>, begin: nat, end: nat): Apps
    requires end <= |maps|
    decreases end - begin
  {
    if end <= begin then []
    else if end == begin + 1 then maps[begin]
    else MergedApps(MergedInterval(maps, begin, (begin + end) / 2), MergedInterval(maps, (begin + end) / 2, end))
  }

  ghost function Contents(maps: seq<Apps>, begin: nat, end: nat): multiset<Declared>
    requires begin <= end <= |maps|
    decreases end
  {
    if begin == end then multiset{} else Contents(maps, begin, end - 1) + InApps(maps[end - 1])
  }

  lemma {:induction false} ContentsSplit(maps: seq<Apps>, begin: nat, middle: nat, end: nat)
    requires begin <= middle <= end <= |maps|
    ensures Contents(maps, begin, end) == Contents(maps, begin, middle) + Contents(maps, middle, end)
    decreases end
  {
    hide InApps;
    if middle < end {
      ContentsSplit(maps, begin, middle, end - 1);
    }
  }

  lemma {:induction false} NothingOrdered()
    ensures AppsOrdered([]) && InApps([]) == multiset{}
  {
  }

  /** The merged map holds exactly the declarations of all maps, with every application, every chunk of it, and every
      block of that in order. */
  lemma {:induction false} MergedIntervalIsOrderedPermutation(maps: seq<Apps>, begin: nat, end: nat)
    requires begin <= end <= |maps| && forall i :: 0 <= i < |maps| ==> AppsOrdered(maps[i])
    ensures AppsOrdered(MergedInterval(maps, begin, end))
    ensures InApps(MergedInterval(maps, begin, end)) == Contents(maps, begin, end)
    decreases end - begin
  {
    hide InApps, AppsOrdered, MergedApps;
    if end == begin + 1 {
      assert Contents(maps, begin, begin) == multiset{};
    } else if end == begin {
      NothingOrdered();
    } else {
      var middle := (begin + end) / 2;
      MergedIntervalIsOrderedPermutation(maps, begin, middle);
      MergedIntervalIsOrderedPermutation(maps, middle, end);
      var l, r := MergedInterval(maps, begin, middle), MergedInterval(maps, middle, end);
      MergedAppsOrdered(l, r);
      MergedAppsContents(l, r);
      ContentsSplit(maps, begin, middle, end);
    }
  }

  /** `mergeIntervalParallel`: intervals longer than k give their second half to another worker. Both halves only read
      their own part of the input, so who merges them makes no difference. */
  method MergeIntervalParallel(maps: seq<Apps>, begin: nat, end: nat, k: nat) returns (result: Apps)
    requires begin <= end <= |maps|
    ensures result == MergedInterval(maps, begin, end)
    decreases end - begin
  {
    if end <= begin {
      return [];
    }
    if end == begin + 1 {
      return maps[begin];
    }
    if end <= begin + k {
      var first := MergeIntervalParallel(maps, begin, (begin + end) / 2, k);
      var second := MergeIntervalParallel(maps, (begin + end) / 2, end, k);
      result := MergeApps(first, second);
    } else {
      var secondHalf := MergeIntervalParallel(maps, (begin + end) / 2, end, k);
      var firstHalf := MergeIntervalParallel(maps, begin, (begin + end) / 2, k);
      result := MergeApps(firstHalf, secondHalf);
    }
  }

  /** `mergeAllParallel`, for every number of workers. */
  method MergeAllParallel(maps: seq<Apps>, workersCount: nat) returns (result: Apps)
    requires workersCount >= 1 && forall i :: 0 <= i < |maps| ==> AppsOrdered(maps[i])
    ensures AppsOrdered(result) && InApps(result) == Contents(maps, 0, |maps|)
    ensures result == MergedInterval(maps, 0, |maps|)
  {
    result := MergeIntervalParallel(maps, 0, |maps|, |maps| / workersCount);
    MergedIntervalIsOrderedPermutation(maps, 0, |maps|);
  }

  // ---------- what the verifier gets ----------

  function Keys(s: Offsets): seq<int> {
    seq(|s|, i requires 0 <= i < |s| => s[i].key)
  }

  function Values(s: Offsets): seq<Block> {
    seq(|s|, i requires 0 <= i < |s| => s[i].value)
  }

  lemma {:induction false} OrderedAt(s: Offsets, i: nat, j: nat)
    requires OffsetsOrdered(s) && i < j < |s|
    ensures !Before(s[j], s[i])
  {
    if i == 0 {
      assert s[j] == s[1..][j - 1];
    } else {
      OrderedAt(s[1..], i - 1, j - 1);
    }
  }

  /** The blocks of a merged list at one offset, by name: those that only check come first, then writers, then readers,
      then adders, and within a type the requests ascend. */
  lemma {:induction false} MergedBlocksInOrder(maps: seq<Apps>, i: nat, j: nat, k: nat, l: nat)
    requires forall u :: 0 <= u < |maps| ==> AppsOrdered(maps[u])
    requires var m := MergedInterval(maps, 0, |maps|); i < |m| && j < |m[i].value| && k < l < |m[i].value[j].value|
    ensures var list := MergedInterval(maps, 0, |maps|)[i].value[j].value;
            var (a, b) := (list[k].value, list[l].value);
            && list[k].key <= list[l].key
            && (list[k].key == list[l].key ==>
                  && (b.access == CheckOnly ==> a.access == CheckOnly)
                  && (b.access == Writable ==> a.access == CheckOnly || a.access == Writable)
                  && (a.access == IntAdditive ==> b.access == IntAdditive)
                  && (a.access == b.access ==> a.request <= b.request))
  {
    var m := MergedInterval(maps, 0, |maps|);
    MergedIntervalIsOrderedPermutation(maps, 0, |maps|);
    hide MergedInterval;
    assert ChunksOrdered(m[i].value);
    OrderedAt(m[i].value[j].value, k, l);
  }

  /** The offsets of one chunk of a merged map are an input of the collision verifier. */
  lemma {:induction false} OrderedIsInput(s: Offsets)
    requires OffsetsOrdered(s) && forall i :: 0 <= i < |s| ==> CollisionSweep.Allowed(s[i].key, s[i].value.access)
    ensures CollisionSweep.Input(Keys(s), Values(s))
  {
    forall k, l | 0 <= k < l < |s|
      ensures Keys(s)[k] <= Keys(s)[l]
    {
      OrderedAt(s, k, l);
    }
  }

  lemma {:induction false} GatheredHas<V(!new)>(s: seq<Entry<V>>, below: (int, V) -> multiset<Declared>, x: Declared)
    returns (i: nat)
    requires x in Gathered(s, below)
    ensures i < |s| && x in below(s[i].key, s[i].value)
  {
    if x in below(s[0].key, s[0].value) {
      i := 0;
    } else {
      i := GatheredHas(s[1..], below, x);
      i := i + 1;
    }
  }

  /** Whatever a request declares for a chunk is in the list of that chunk after the merge. */
  lemma {:induction false} DeclarationIsListed(maps: seq<Apps>, u: nat, x: Declared) returns (i: nat, j: nat, k: nat)
    requires (forall v :: 0 <= v < |maps| ==> AppsOrdered(maps[v])) && u < |maps| && x in InApps(maps[u])
    ensures var m := MergedInterval(maps, 0, |maps|);
            && i < |m| && m[i].key == x.chunk.app && j < |m[i].value| && m[i].value[j].key == x.chunk.local
            && k < |m[i].value[j].value| && m[i].value[j].value[k] == Entry(x.offset, x.block)
            && OffsetsOrdered(m[i].value[j].value)
  {
    var m := MergedInterval(maps, 0, |maps|);
    MergedIntervalIsOrderedPermutation(maps, 0, |maps|);
    ContentsHas(maps, u, |maps|, x);
    i := GatheredHas(m, (app: int, c: Chunks) => InChunks(app, c), x);
    var c := m[i];
    j := GatheredHas(c.value, (chunk: int, o: Offsets) => InOffsets(c.key, chunk, o), x);
    var o := c.value[j];
    k := GatheredHas(o.value, (offset: int, b: Block) => multiset{Declared(ChunkId(c.key, o.key), offset, b)}, x);
  }

  lemma {:induction false} GatheredIn<V(!new)>(s: seq<Entry<V>>, below: (int, V) -> multiset<Declared>, i: nat,
                                        x: Declared)
    requires i < |s| && x in below(s[i].key, s[i].value)
    ensures x in Gathered(s, below)
  {
    if i > 0 {
      assert s[i] == s[1..][i - 1];
      GatheredIn(s[1..], below, i - 1, x);
    }
  }

  /** Conversely, every entry of a merged list was declared by some request. */
  lemma {:induction false} ListedIsDeclared(maps: seq<Apps>, i: nat, j: nat, k: nat) returns (u: nat)
    requires forall v :: 0 <= v < |maps| ==> AppsOrdered(maps[v])
    requires var m := MergedInterval(maps, 0, |maps|); i < |m| && j < |m[i].value| && k < |m[i].value[j].value|
    ensures var m := MergedInterval(maps, 0, |maps|);
            var e := m[i].value[j].value[k];
            u < |maps| && Declared(ChunkId(m[i].key, m[i].value[j].key), e.key, e.value) in InApps(maps[u])
  {
    var m := MergedInterval(maps, 0, |maps|);
    var c, o := m[i], m[i].value[j];
    var x := Declared(ChunkId(c.key, o.key), o.value[k].key, o.value[k].value);
    GatheredIn(o.value, (offset: int, b: Block) => multiset{Declared(ChunkId(c.key, o.key), offset, b)}, k, x);
    GatheredIn(c.value, (chunk: int, p: Offsets) => InOffsets(c.key, chunk, p), j, x);
    GatheredIn(m, (app: int, p: Chunks) => InChunks(app, p), i, x);
    MergedIntervalIsOrderedPermutation(maps, 0, |maps|);
    u := ContentsFrom(maps, |maps|, x);
  }

  lemma {:induction false} ContentsFrom(maps: seq<Apps>, end: nat, x: Declared) returns (u: nat)
    requires end <= |maps| && x in Contents(maps, 0, end)
    ensures u < end && x in InApps(maps[u])
    decreases end
  {
    hide InApps;
    if x in InApps(maps[end - 1]) {
      u := end - 1;
    } else {
      u := ContentsFrom(maps, end - 1, x);
    }
  }

  lemma {:induction false} ContentsHas(maps: seq<Apps>, u: nat, end: nat, x: Declared)
    requires u < end <= |maps| && x in InApps(maps[u])
    ensures x in Contents(maps, 0, end)
    decreases end
  {
    hide InApps;
    if u < end - 1 {
      ContentsHas(maps, u, end - 1, x);
    }
  }

  /** `find`: binary search, a position exactly when the key occurs. */
  method Find(sortedKeys: seq<int>, key: int) returns (position: int)
    requires forall i, j :: 0 <= i < j < |sortedKeys| ==> sortedKeys[i] <= sortedKeys[j]
    ensures position >= 0 ==> position < |sortedKeys| && sortedKeys[position] == key
    ensures position == -1 <==> key !in sortedKeys
    ensures position >= -1
  {
    var begin, end := 0, |sortedKeys|;
    var mid := (begin + end) / 2;
    while mid < end
      invariant 0 <= begin <= end <= |sortedKeys| && mid == (begin + end) / 2
      invariant forall i :: 0 <= i < |sortedKeys| && !(begin <= i < end) ==> sortedKeys[i] != key
      decreases end - begin
    {
      if key == sortedKeys[mid] {
        return mid;
      } else if key < sortedKeys[mid] {
        end := mid;
      } else {
        begin := mid + 1;
      }
      mid := (begin + end) / 2;
    }
    return -1;
  }
}
