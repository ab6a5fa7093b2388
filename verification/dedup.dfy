/**
 * Finding deduplication: the left-to-right pass that keeps an occurrence only
 * when its finding id has not been seen yet, recording each kept id as it goes.
 */
module Deduplication {
  import opened CycloneDx

  /** Objects.hashCode over (component name, location, line, offset). Any function will do. */
  type HashFn = (string, string, int, int) -> int

  function FindingId(hash: HashFn, name: string, o: Occurrence): int
  {
    hash(name, o.location, o.line, o.offset)
  }

  /** The finding ids of `occs`, in order. */
  function IdSeq(hash: HashFn, name: string, occs: seq<Occurrence>): seq<int>
  {
    seq(|occs|, k requires 0 <= k < |occs| => FindingId(hash, name, occs[k]))
  }

  /** The finding ids of `occs`, as a set. */
  function IdSet(hash: HashFn, name: string, occs: seq<Occurrence>): set<int>
  {
    set k | 0 <= k < |occs| :: FindingId(hash, name, occs[k])
  }

  datatype DedupResult = DedupResult(kept: seq<Occurrence>, seen: set<int>)

  /**
   * The pass of deduplicateFindings over `occs`, starting from the id set `seen`:
   * the occurrences kept, in order, and the id set afterwards.
   */
  function Dedup(hash: HashFn, name: string, seen: set<int>, occs: seq<Occurrence>): (r: DedupResult)
    ensures seen <= r.seen
    ensures |r.kept| <= |occs|
    decreases |occs|
  {
    if occs == [] then DedupResult([], seen)
    else
      var r := Dedup(hash, name, seen, occs[..|occs| - 1]);
      var last := occs[|occs| - 1];
      var id := FindingId(hash, name, last);
      if id in r.seen then r else DedupResult(r.kept + [last], r.seen + {id})
  }

  /** Occurrence i is the first of `occs` with its id, and that id is not in `seen`. */
  predicate IsFirstNew(hash: HashFn, name: string, seen: set<int>, occs: seq<Occurrence>, i: int)
    requires 0 <= i < |occs|
  {
    FindingId(hash, name, occs[i]) !in seen &&
    forall j :: 0 <= j < i ==> FindingId(hash, name, occs[j]) != FindingId(hash, name, occs[i])
  }

  /** Reference definition: the order-preserving filter of the occurrences that are first-new. */
  function KeepFirstNew(hash: HashFn, name: string, seen: set<int>, occs: seq<Occurrence>): seq<Occurrence>
    decreases |occs|
  {
    if occs == [] then []
    else
      KeepFirstNew(hash, name, seen, occs[..|occs| - 1]) +
      (if IsFirstNew(hash, name, seen, occs, |occs| - 1) then [occs[|occs| - 1]] else [])
  }

  /** After the pass, the id set is the old set together with the ids of all occurrences. */
  lemma {:induction false} DedupSeen(hash: HashFn, name: string, seen: set<int>, occs: seq<Occurrence>)
    ensures Dedup(hash, name, seen, occs).seen == seen + IdSet(hash, name, occs)
    decreases |occs|
  {
    if occs != [] {
      var init := occs[..|occs| - 1];
      DedupSeen(hash, name, seen, init);
      assert IdSet(hash, name, occs) == IdSet(hash, name, init) + {FindingId(hash, name, occs[|occs| - 1])} by {
        forall x | x in IdSet(hash, name, occs)
          ensures x in IdSet(hash, name, init) + {FindingId(hash, name, occs[|occs| - 1])}
        {
          var k :| 0 <= k < |occs| && x == FindingId(hash, name, occs[k]);
          if k < |occs| - 1 { assert init[k] == occs[k]; }
        }
        forall x | x in IdSet(hash, name, init)
          ensures x in IdSet(hash, name, occs)
        {
          var k :| 0 <= k < |init| && x == FindingId(hash, name, init[k]);
          assert occs[k] == init[k];
        }
      }
    }
  }

  /** The pass keeps exactly the first-new occurrences, in input order. */
  lemma {:induction false} DedupIsKeepFirstNew(hash: HashFn, name: string, seen: set<int>, occs: seq<Occurrence>)
    ensures Dedup(hash, name, seen, occs).kept == KeepFirstNew(hash, name, seen, occs)
    decreases |occs|
  {
    if occs != [] {
      var n := |occs| - 1;
      var init := occs[..n];
      DedupIsKeepFirstNew(hash, name, seen, init);
      DedupSeen(hash, name, seen, init);
      var id := FindingId(hash, name, occs[n]);
      if id in seen + IdSet(hash, name, init) {
        if id !in seen {
          var k :| 0 <= k < |init| && id == FindingId(hash, name, init[k]);
          assert occs[k] == init[k];
        }
        assert !IsFirstNew(hash, name, seen, occs, n);
      } else {
        forall j | 0 <= j < n
          ensures FindingId(hash, name, occs[j]) != id
        {
          assert occs[j] == init[j];
        }
        assert IsFirstNew(hash, name, seen, occs, n);
      }
    }
  }

  /**
   * Every kept occurrence comes from the input, its id was not in `seen` and is
   * in the new set, and the kept ids are pairwise distinct.
   */
  lemma {:induction false} DedupKeptIds(hash: HashFn, name: string, seen: set<int>, occs: seq<Occurrence>)
    ensures var r := Dedup(hash, name, seen, occs);
      && seen <= r.seen
      && |r.kept| <= |occs|
      && (forall k :: 0 <= k < |r.kept| ==> r.kept[k] in occs)
      && (forall k :: 0 <= k < |r.kept| ==>
            FindingId(hash, name, r.kept[k]) !in seen && FindingId(hash, name, r.kept[k]) in r.seen)
      && Distinct(IdSeq(hash, name, r.kept))
    decreases |occs|
  {
    if occs != [] {
      var n := |occs| - 1;
      var init := occs[..n];
      DedupKeptIds(hash, name, seen, init);
      var r0 := Dedup(hash, name, seen, init);
      var id := FindingId(hash, name, occs[n]);
      if id !in r0.seen {
        var kept := r0.kept + [occs[n]];
        forall k | 0 <= k < |kept| ensures kept[k] in occs {
          if k < |r0.kept| { assert r0.kept[k] in init; }
        }
        forall i, j | 0 <= i < j < |kept|
          ensures IdSeq(hash, name, kept)[i] != IdSeq(hash, name, kept)[j]
        {
          if j < |r0.kept| {
            assert IdSeq(hash, name, r0.kept)[i] != IdSeq(hash, name, r0.kept)[j];
          }
        }
      }
    }
  }

  /** When every id of `occs` is already in `seen`, the pass keeps nothing and adds nothing. */
  lemma {:induction false} DedupAllSeen(hash: HashFn, name: string, seen: set<int>, occs: seq<Occurrence>)
    requires IdSet(hash, name, occs) <= seen
    ensures Dedup(hash, name, seen, occs) == DedupResult([], seen)
    decreases |occs|
  {
    if occs != [] {
      var n := |occs| - 1;
      var init := occs[..n];
      assert IdSet(hash, name, init) <= seen by {
        forall x | x in IdSet(hash, name, init) ensures x in seen {
          var k :| 0 <= k < |init| && x == FindingId(hash, name, init[k]);
          assert occs[k] == init[k];
          assert x in IdSet(hash, name, occs);
        }
      }
      DedupAllSeen(hash, name, seen, init);
      assert FindingId(hash, name, occs[n]) in IdSet(hash, name, occs);
    }
  }

  /** Resubmitting the same occurrences after a pass keeps nothing. */
  lemma DedupResubmitKeepsNothing(hash: HashFn, name: string, seen: set<int>, occs: seq<Occurrence>)
    ensures var r := Dedup(hash, name, seen, occs);
      Dedup(hash, name, r.seen, occs) == DedupResult([], r.seen)
  {
    DedupSeen(hash, name, seen, occs);
    DedupAllSeen(hash, name, Dedup(hash, name, seen, occs).seen, occs);
  }

  /** Two identical occurrences with an unseen id yield exactly one kept occurrence. */
  lemma DedupIdenticalPair(hash: HashFn, name: string, seen: set<int>, o: Occurrence)
    requires FindingId(hash, name, o) !in seen
    ensures Dedup(hash, name, seen, [o, o]).kept == [o]
  {
    assert [o, o][..1] == [o];
    assert [o][..0] == [];
    assert Dedup(hash, name, seen, []) == DedupResult([], seen);
    assert [] + [o] == [o];
    var r1 := Dedup(hash, name, seen, [o]);
    assert r1 == DedupResult([o], seen + {FindingId(hash, name, o)});
  }

  /**
   * Across two successive passes (of possibly different components), no
   * finding id is kept twice.
   */
  lemma DedupAcrossCalls(hash: HashFn, name1: string, name2: string, seen: set<int>,
                         occs1: seq<Occurrence>, occs2: seq<Occurrence>)
    ensures var r1 := Dedup(hash, name1, seen, occs1);
      var r2 := Dedup(hash, name2, r1.seen, occs2);
      forall i, j :: 0 <= i < |r1.kept| && 0 <= j < |r2.kept| ==>
        FindingId(hash, name1, r1.kept[i]) != FindingId(hash, name2, r2.kept[j])
  {
    var r1 := Dedup(hash, name1, seen, occs1);
    DedupKeptIds(hash, name1, seen, occs1);
    DedupKeptIds(hash, name2, r1.seen, occs2);
  }
}
