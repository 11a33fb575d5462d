/** The bounded window of block hashes a source remembers (`ReorgTracker`). */
module Reorg {
  import opened Common
  import opened Encoding

  type Hashes = map<nat, string>

  datatype Guard = Guard(blockNumber: nat, hash: string, firstBlock: nat, firstParentHash: string)

  datatype Response = Response(
    archiveHeight: Option<nat>,
    nextBlock: nat,
    records: seq<Record>,
    blockHashes: seq<(nat, string)>,
    guard: Option<Guard>)

  // ---- extreme keys ----

  ghost predicate IsMin(s: set<nat>, k: nat) {
    k in s && forall j :: j in s ==> k <= j
  }

  ghost predicate IsMax(s: set<nat>, k: nat) {
    k in s && forall j :: j in s ==> j <= k
  }

  lemma {:induction false} MinExists(s: set<nat>)
    requires s != {}
    ensures exists k :: IsMin(s, k)
  {
    var x :| x in s;
    if s == {x} {
      assert IsMin(s, x);
    } else {
      var rest := s - {x};
      MinExists(rest);
      var m :| IsMin(rest, m);
      assert forall j :: j in s ==> j == x || j in rest;
      assert IsMin(s, Min(x, m));
    }
  }

  lemma {:induction false} MaxExists(s: set<nat>)
    requires s != {}
    ensures exists k :: IsMax(s, k)
  {
    var x :| x in s;
    if s == {x} {
      assert IsMax(s, x);
    } else {
      var rest := s - {x};
      MaxExists(rest);
      var m :| IsMax(rest, m);
      assert forall j :: j in s ==> j == x || j in rest;
      assert IsMax(s, Max(x, m));
    }
  }

  ghost function MinKey(s: set<nat>): (k: nat)
    requires s != {}
    ensures IsMin(s, k)
  {
    MinExists(s);
    var k :| IsMin(s, k);
    k
  }

  ghost function MaxKey(s: set<nat>): (k: nat)
    requires s != {}
    ensures IsMax(s, k)
  {
    MaxExists(s);
    var k :| IsMax(s, k);
    k
  }

  // ---- what each operation does to the window ----

  /** Inserts every pair below `bound`. */
  function InsertBelow(m: Hashes, pairs: seq<(nat, string)>, bound: nat): Hashes {
    if pairs == [] then m else
      var (num, hash) := pairs[|pairs| - 1];
      var before := InsertBelow(m, pairs[..|pairs| - 1], bound);
      if num < bound then before[num := hash] else before
  }

  function InsertGuard(m: Hashes, g: Option<Guard>, bound: nat): Hashes {
    if g.None? then m else
      var m1 := if g.value.blockNumber < bound then m[g.value.blockNumber := g.value.hash] else m;
      if g.value.firstBlock > 0 then m1[g.value.firstBlock - 1 := g.value.firstParentHash] else m1
  }

  /** Pops lowest blocks until at most `window` are left. */
  ghost function Trimmed(m: Hashes, window: nat): Hashes
    decreases |m|
  {
    if |m| <= window then m else
      assert m != map[];
      Trimmed(m - {MinKey(m.Keys)}, window)
  }

  ghost function Recorded(m: Hashes, resp: Response, emittedNext: nat, window: nat): Hashes {
    Trimmed(InsertGuard(InsertBelow(m, resp.blockHashes, emittedNext), resp.guard, emittedNext), window)
  }

  function Purged(m: Hashes, fork: nat): Hashes {
    map k | k in m && k <= fork :: m[k]
  }

  ghost predicate GuardMismatch(m: Hashes, g: Option<Guard>, b: nat) {
    g.Some? && g.value.firstBlock > 0 && b == g.value.firstBlock - 1 && b in m && m[b] != g.value.firstParentHash
  }

  ghost predicate PairMismatch(m: Hashes, p: (nat, string), b: nat) {
    b == p.0 && b in m && m[b] != p.1
  }

  /** The response contradicts the stored hash of block `b`. */
  ghost predicate Mismatch(m: Hashes, resp: Response, b: nat) {
    || GuardMismatch(m, resp.guard, b)
    || exists i :: 0 <= i < |resp.blockHashes| && PairMismatch(m, resp.blockHashes[i], b)
  }

  ghost predicate Conflicts(m: Hashes, resp: Response) {
    exists b :: Mismatch(m, resp, b)
  }

  ghost function Matching(m: Hashes, canon: Hashes): set<nat> {
    set k | k in m && k in canon && canon[k] == m[k]
  }

  /** Highest stored block whose hash the canonical map confirms. */
  ghost function LastMatching(m: Hashes, canon: Hashes): Option<nat> {
    if Matching(m, canon) == {} then None else Some(MaxKey(Matching(m, canon)))
  }

  // ---- the tracker object ----

  class ReorgTracker {
    const window: nat
    var hashes: Hashes

    constructor (window: nat)
      ensures this.window == Max(window, 1) && hashes == map[]
    {
      this.window := Max(window, 1);
      this.hashes := map[];
    }

    /** Restores the window a previous run saved. */
    constructor Load(window: nat, saved: Option<seq<(nat, string)>>)
      ensures this.window == Max(window, 1)
      ensures saved.None? ==> hashes == map[]
      ensures saved.Some? ==> hashes == Trimmed(Collected(saved.value), Max(window, 1))
    {
      this.window := Max(window, 1);
      this.hashes := map[];
      new;
      if saved.Some? {
        hashes := Collect(saved.value);
        Trim();
      }
    }

    /** The pairs to persist, lowest block first. */
    method Save() returns (pairs: seq<(nat, string)>)
      ensures pairs == Ascending(hashes)
    {
      pairs := [];
      var rest := hashes;
      while rest != map[]
        invariant Ascending(hashes) == pairs + Ascending(rest)
        decreases |rest|
      {
        MinExists(rest.Keys);
        var k :| k in rest && forall j :: j in rest ==> k <= j;
        assert k == MinKey(rest.Keys);
        pairs := pairs + [(k, rest[k])];
        rest := rest - {k};
      }
    }

    method Record(resp: Response, emittedNext: nat)
      modifies this`hashes
      ensures hashes == Recorded(old(hashes), resp, emittedNext, window)
    {
      hide Trimmed;
      var pairs := resp.blockHashes;
      for i := 0 to |pairs|
        invariant hashes == InsertBelow(old(hashes), pairs[..i], emittedNext)
      {
        assert pairs[..i + 1][..i] == pairs[..i];
        if pairs[i].0 < emittedNext {
          hashes := hashes[pairs[i].0 := pairs[i].1];
        }
      }
      assert pairs[..|pairs|] == pairs;
      if resp.guard.Some? {
        var g := resp.guard.value;
        if g.blockNumber < emittedNext {
          hashes := hashes[g.blockNumber := g.hash];
        }
        if g.firstBlock > 0 {
          hashes := hashes[g.firstBlock - 1 := g.firstParentHash];
        }
      }
      Trim();
    }

    method Trim()
      modifies this`hashes
      ensures hashes == Trimmed(old(hashes), window)
    {
      while |hashes| > window
        invariant Trimmed(old(hashes), window) == Trimmed(hashes, window)
        decreases |hashes|
      {
        assert hashes != map[];
        MinExists(hashes.Keys);
        var k :| k in hashes && forall j :: j in hashes ==> k <= j;
        assert k == MinKey(hashes.Keys);
        hashes := hashes - {k};
      }
    }

    /** The lowest stored block the response contradicts, if any. */
    method Conflict(resp: Response) returns (worst: Option<nat>)
      ensures worst.Some? <==> Conflicts(hashes, resp)
      ensures worst.Some? ==> Mismatch(hashes, resp, worst.value)
      ensures worst.Some? ==> forall b :: Mismatch(hashes, resp, b) ==> worst.value <= b
    {
      worst := None;
      if resp.guard.Some? && resp.guard.value.firstBlock > 0 {
        var parent := resp.guard.value.firstBlock - 1;
        if parent in hashes && hashes[parent] != resp.guard.value.firstParentHash {
          worst := Some(parent);
        }
      }
      var pairs := resp.blockHashes;
      for i := 0 to |pairs|
        invariant worst.Some? ==> Mismatch(hashes, resp, worst.value)
        invariant forall b :: GuardMismatch(hashes, resp.guard, b) ==> worst.Some? && worst.value <= b
        invariant forall j, b :: 0 <= j < i && PairMismatch(hashes, pairs[j], b) ==> worst.Some? && worst.value <= b
      {
        var (num, hash) := pairs[i];
        if num in hashes && hashes[num] != hash {
          assert PairMismatch(hashes, pairs[i], num);
          worst := Some(if worst.Some? then Min(worst.value, num) else num);
        }
      }
    }

    /** Walks the stored blocks newest first until one matches. */
    method FindLastMatching(canon: Hashes) returns (r: Option<nat>)
      ensures r == LastMatching(hashes, canon)
    {
      var rest := hashes;
      while rest != map[]
        invariant forall k :: k in rest ==> k in hashes && rest[k] == hashes[k]
        invariant Matching(hashes, canon) == Matching(rest, canon)
        decreases |rest|
      {
        MaxExists(rest.Keys);
        var k :| k in rest && forall j :: j in rest ==> j <= k;
        if k in canon && canon[k] == rest[k] {
          assert IsMax(Matching(hashes, canon), k);
          return Some(k);
        }
        rest := rest - {k};
      }
      r := None;
    }

    /** Drops exactly the hashes above the fork. */
    method PurgeAfter(fork: nat)
      modifies this`hashes
      ensures forall k :: k in hashes <==> k in old(hashes) && k <= fork
      ensures forall k :: k in hashes ==> hashes[k] == old(hashes)[k]
    {
      hashes := map k | k in hashes && k <= fork :: hashes[k];
    }

    method MinBlock() returns (r: Option<nat>)
      ensures r == if hashes == map[] then None else Some(MinKey(hashes.Keys))
    {
      if hashes == map[] {
        return None;
      }
      MinExists(hashes.Keys);
      var k :| k in hashes && forall j :: j in hashes ==> k <= j;
      r := Some(k);
    }
  }

  // ---- saving and loading ----

  ghost function Ascending(m: Hashes): seq<(nat, string)>
    decreases |m|
  {
    if m == map[] then [] else
      var k := MinKey(m.Keys);
      [(k, m[k])] + Ascending(m - {k})
  }

  /** Collecting pairs into a map: a later pair overrides an earlier one. */
  function Collected(pairs: seq<(nat, string)>): Hashes {
    if pairs == [] then map[]
    else Collected(pairs[..|pairs| - 1])[pairs[|pairs| - 1].0 := pairs[|pairs| - 1].1]
  }

  method Collect(pairs: seq<(nat, string)>) returns (m: Hashes)
    ensures m == Collected(pairs)
  {
    m := map[];
    for i := 0 to |pairs|
      invariant m == Collected(pairs[..i])
    {
      assert pairs[..i + 1][..i] == pairs[..i];
      m := m[pairs[i].0 := pairs[i].1];
    }
    assert pairs[..|pairs|] == pairs;
  }

  lemma {:induction false} CollectedCons(p: (nat, string), pairs: seq<(nat, string)>)
    ensures Collected([p] + pairs) == map[p.0 := p.1] + Collected(pairs)
  {
    if pairs == [] {
      assert [p] + pairs == [p] && [p][..0] == [];
    } else {
      CollectedCons(p, pairs[..|pairs| - 1]);
      assert ([p] + pairs)[..|pairs|] == [p] + pairs[..|pairs| - 1];
    }
  }

  lemma {:induction false} CollectedAscending(m: Hashes)
    ensures Collected(Ascending(m)) == m
    decreases |m|
  {
    if m != map[] {
      var k := MinKey(m.Keys);
      CollectedAscending(m - {k});
      CollectedCons((k, m[k]), Ascending(m - {k}));
      assert map[k := m[k]] + (m - {k}) == m;
    }
  }

  /** The saved pairs are the window's blocks, each once and lowest first. */
  lemma {:induction false} AscendingIsSorted(m: Hashes)
    ensures forall p :: p in Ascending(m) <==> p.0 in m && m[p.0] == p.1
    ensures forall i, j :: 0 <= i < j < |Ascending(m)| ==> Ascending(m)[i].0 < Ascending(m)[j].0
    decreases |m|
  {
    if m != map[] {
      var k := MinKey(m.Keys);
      AscendingIsSorted(m - {k});
      var rest := Ascending(m - {k});
      forall j | 0 <= j < |rest| ensures k < rest[j].0 {
        assert rest[j] in rest;
      }
    }
  }

  /** A saved window loads back as it was, up to the window the new run is configured with. */
  lemma SaveLoadRoundTrip(m: Hashes, window: nat)
    ensures Trimmed(Collected(Ascending(m)), window) == Trimmed(m, window)
    ensures |m| <= window ==> Trimmed(Collected(Ascending(m)), window) == m
  {
    CollectedAscending(m);
  }

  lemma {:induction false} CollectedSound(pairs: seq<(nat, string)>, d: Chain)
    requires forall i :: 0 <= i < |pairs| ==> pairs[i].1 == d.at(pairs[i].0).hash
    ensures forall n :: n in Collected(pairs) ==> Collected(pairs)[n] == d.at(n).hash
    ensures forall n :: n in Collected(pairs) <==> exists i :: 0 <= i < |pairs| && pairs[i].0 == n
  {
    if pairs != [] {
      var init := pairs[..|pairs| - 1];
      CollectedSound(init, d);
      forall n
        ensures n in Collected(pairs) <==> exists i :: 0 <= i < |pairs| && pairs[i].0 == n
      {
        if n in Collected(init) {
          var i :| 0 <= i < |init| && init[i].0 == n;
          assert pairs[i].0 == n;
        }
        if i :| 0 <= i < |pairs| && pairs[i].0 == n {
          if i < |init| { assert init[i].0 == n; }
        }
      }
    }
  }

  /** Pair `i` is the last one listing block `n`. */
  ghost predicate ListedLast(pairs: seq<(nat, string)>, n: nat, i: nat) {
    i < |pairs| && pairs[i].0 == n && forall j :: i < j < |pairs| ==> pairs[j].0 != n
  }

  /** A collected block has the hash of the last pair that lists it. */
  lemma {:induction false} CollectedMeaning(pairs: seq<(nat, string)>, n: nat, i: nat)
    requires ListedLast(pairs, n, i)
    ensures n in Collected(pairs) && Collected(pairs)[n] == pairs[i].1
  {
    if i < |pairs| - 1 {
      CollectedMeaning(pairs[..|pairs| - 1], n, i);
    }
  }

  // ---- what a response adds to the window ----

  lemma {:induction false} InsertBelowIsUpdate(m: Hashes, pairs: seq<(nat, string)>, bound: nat, n: nat)
    ensures var r := InsertBelow(m, pairs, bound);
            if n < bound && exists j :: 0 <= j < |pairs| && pairs[j].0 == n
            then n in r && exists i: nat :: ListedLast(pairs, n, i) && r[n] == pairs[i].1
            else (n in r <==> n in m) && (n in r ==> r[n] == m[n])
  {
    if pairs != [] {
      var init, last := pairs[..|pairs| - 1], |pairs| - 1;
      InsertBelowIsUpdate(m, init, bound, n);
      if pairs[last].0 == n {
        assert ListedLast(pairs, n, last);
      } else {
        assert forall j :: 0 <= j < last ==> init[j] == pairs[j];
        forall i: nat | ListedLast(init, n, i) ensures ListedLast(pairs, n, i) && init[i] == pairs[i] {
        }
        assert (exists j :: 0 <= j < |pairs| && pairs[j].0 == n) ==> exists j :: 0 <= j < |init| && init[j].0 == n;
      }
    }
  }

  /** What the window says of block `n` once a response is recorded and before it is trimmed: the guard's
      parent hash, else the guard's own hash, else the last listed one, else what it said before. Only
      blocks below `bound` count, but for the guard's parent. */
  lemma InsertedMeaning(m: Hashes, resp: Response, bound: nat, n: nat)
    ensures var r := InsertGuard(InsertBelow(m, resp.blockHashes, bound), resp.guard, bound);
            var listed := exists j :: 0 <= j < |resp.blockHashes| && resp.blockHashes[j].0 == n;
            if resp.guard.Some? && n + 1 == resp.guard.value.firstBlock
            then n in r && r[n] == resp.guard.value.firstParentHash
            else if resp.guard.Some? && n == resp.guard.value.blockNumber && n < bound
            then n in r && r[n] == resp.guard.value.hash
            else if listed && n < bound
            then n in r && exists i: nat :: ListedLast(resp.blockHashes, n, i) && r[n] == resp.blockHashes[i].1
            else (n in r <==> n in m) && (n in r ==> r[n] == m[n])
  {
    InsertBelowIsUpdate(m, resp.blockHashes, bound, n);
  }

  /** Recording keeps the `window` highest blocks of that. */
  lemma RecordedMeaning(m: Hashes, resp: Response, bound: nat, window: nat)
    ensures var full := InsertGuard(InsertBelow(m, resp.blockHashes, bound), resp.guard, bound);
            var r := Recorded(m, resp, bound, window);
            |r| == Min(|full|, window) && KeepsHighest(full, r)
  {
    TrimmedKeepsHighest(InsertGuard(InsertBelow(m, resp.blockHashes, bound), resp.guard, bound), window);
  }

  // ---- the window keeps the highest blocks ----

  /** `t` holds part of `m`, and everything of `m` it lacks lies below everything it holds. */
  ghost predicate KeepsHighest(m: Hashes, t: Hashes) {
    && (forall k :: k in t ==> k in m && t[k] == m[k])
    && (forall k, j :: k in t && j in m && j !in t ==> j < k)
  }

  lemma PoppingLowest(m: Hashes, low: nat, t: Hashes)
    requires IsMin(m.Keys, low) && KeepsHighest(m - {low}, t)
    ensures KeepsHighest(m, t) && |m - {low}| == |m| - 1
  {
    var rest := m - {low};
    assert rest.Keys == m.Keys - {low};
    forall k, j | k in t && j in m && j !in t ensures j < k {
      assert k in rest;
      if j != low {
        assert j in rest;
      }
    }
  }

  /** Trimming keeps exactly the `window` highest blocks, with their hashes. */
  lemma {:induction false} TrimmedKeepsHighest(m: Hashes, window: nat)
    ensures |Trimmed(m, window)| == Min(|m|, window) && KeepsHighest(m, Trimmed(m, window))
    decreases |m|
  {
    if |m| > window {
      assert m != map[];
      var low := MinKey(m.Keys);
      TrimmedKeepsHighest(m - {low}, window);
      PoppingLowest(m, low, Trimmed(m, window));
    }
  }

  lemma HighestSurvivesTrim(m: Hashes, window: nat, k: nat)
    requires window >= 1 && IsMax(m.Keys, k)
    ensures k in Trimmed(m, window) && Trimmed(m, window)[k] == m[k]
  {
    TrimmedKeepsHighest(m, window);
    var t := Trimmed(m, window);
    assert |m| >= 1 && t != map[];
    var j :| j in t;
    assert j <= k;
  }

  lemma {:induction false} InsertBelowKeys(m: Hashes, pairs: seq<(nat, string)>, bound: nat, k: nat)
    ensures k in InsertBelow(m, pairs, bound) ==>
              (k in m && InsertBelow(m, pairs, bound)[k] == m[k]) ||
              (k < bound && exists i :: 0 <= i < |pairs| && pairs[i] == (k, InsertBelow(m, pairs, bound)[k]))
    ensures k in m || (k < bound && exists i :: 0 <= i < |pairs| && pairs[i].0 == k) ==>
            k in InsertBelow(m, pairs, bound)
  {
    if pairs != [] {
      var init := pairs[..|pairs| - 1];
      InsertBelowKeys(m, init, bound, k);
      var was := (k, if k in InsertBelow(m, init, bound) then InsertBelow(m, init, bound)[k] else "");
      if i :| 0 <= i < |init| && init[i] == was {
        assert pairs[i] == init[i];
      }
      if i :| 0 <= i < |pairs| && pairs[i].0 == k {
        if i < |init| { assert init[i].0 == k; }
      }
      assert pairs[|pairs| - 1] == (pairs[|pairs| - 1].0, pairs[|pairs| - 1].1);
    }
  }
}
