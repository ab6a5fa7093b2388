/**
 * The finding aggregator: the scanner's cumulative store, the set of finding
 * ids seen so far, and the DETECTION messages streamed to an attached dispatcher.
 */
module Scanning {
  import opened CycloneDx
  import opened Deduplication
  import opened Sanitize

  /**
   * copyCryptoAsset: a new component with the same bomRef, name, type and the
   * same cryptoProperties reference, and no evidence.
   */
  function CopyCryptoAsset(c: Component): (r: Component)
    ensures r.bomRef == c.bomRef && r.name == c.name && r.kind == c.kind
    ensures r.cryptoProperties == c.cryptoProperties
    ensures r.evidence.None?
  {
    Component(c.bomRef, c.name, c.kind, c.cryptoProperties, None)
  }

  /**
   * What accept's forEach carries from one component to the next: the id set,
   * the messages the dispatcher accepted, the ids of the occurrences handed to
   * it in DETECTION messages, and the exception that stopped the walk, if any.
   */
  datatype EmitState = EmitState(seen: set<int>, sent: seq<ProgressMessage>, emitted: seq<int>, fault: Option<Fault>)

  /**
   * The invariant the aggregator keeps: no id was handed to the dispatcher
   * twice, every such id is recorded, and every DETECTION has evidence.
   */
  predicate EmitInv(st: EmitState)
  {
    && Distinct(st.emitted)
    && (forall k :: 0 <= k < |st.emitted| ==> st.emitted[k] in st.seen)
    && DetectionsNonEmpty(st.sent)
  }

  /**
   * The forEach body of accept for one component: deduplicate; when something
   * is left, copy, attach the kept occurrences, sanitise and send. A refused
   * send (ClientDisconnected, or a serialisation error) is swallowed.
   */
  function EmitStep(hash: HashFn, canonical: Option<string>, refuses: ProgressMessage -> bool,
                    st: EmitState, c: Component): (r: EmitState)
    ensures st.fault.None? ==> (r.fault == Some(NullEvidence) <==> c.evidence.None?)
  {
    if st.fault.Some? then st
    else match c.evidence
      case None => st.(fault := Some(NullEvidence))
      case Some(occs) =>
        var d := Dedup(hash, c.name, st.seen, occs);
        if d.kept == [] then st.(seen := d.seen)
        else
          var s := SanitizeComponent(canonical, CopyCryptoAsset(c).(evidence := Some(d.kept)));
          if !s.completed then EmitState(d.seen, st.sent, st.emitted, Some(IndexOutOfRange))
          else
            var m := Detection(s.value);
            EmitState(d.seen, if refuses(m) then st.sent else st.sent + [m],
                      st.emitted + IdSeq(hash, c.name, d.kept), None)
  }

  /** accept's forEach over the whole batch. */
  function EmitAll(hash: HashFn, canonical: Option<string>, refuses: ProgressMessage -> bool,
                   st: EmitState, batch: seq<Component>): EmitState
    decreases |batch|
  {
    if batch == [] then st
    else EmitStep(hash, canonical, refuses, EmitAll(hash, canonical, refuses, st, batch[..|batch| - 1]), batch[|batch| - 1])
  }

  /** One component keeps the invariant, grows the id set and only appends messages. */
  lemma EmitStepKeepsInv(hash: HashFn, canonical: Option<string>, refuses: ProgressMessage -> bool,
                         st: EmitState, c: Component)
    requires EmitInv(st)
    ensures var st' := EmitStep(hash, canonical, refuses, st, c);
      EmitInv(st') && st.seen <= st'.seen && st.sent <= st'.sent
  {
    if st.fault.None? && c.evidence.Some? {
      var d := Dedup(hash, c.name, st.seen, c.evidence.value);
      DedupKeptIds(hash, c.name, st.seen, c.evidence.value);
      if d.kept != [] {
        var copy := CopyCryptoAsset(c).(evidence := Some(d.kept));
        var s := SanitizeComponent(canonical, copy);
        SanitizeComponentShape(canonical, copy);
        if s.completed {
          var ids := IdSeq(hash, c.name, d.kept);
          var all := st.emitted + ids;
          forall i, j | 0 <= i < j < |all| ensures all[i] != all[j] {
            if j < |st.emitted| {
            } else if i < |st.emitted| {
              assert all[i] in st.seen;
              assert all[j] == ids[j - |st.emitted|];
            } else {
              assert ids[i - |st.emitted|] != ids[j - |st.emitted|];
            }
          }
          forall k | 0 <= k < |all| ensures all[k] in d.seen {
            if k >= |st.emitted| { assert all[k] == ids[k - |st.emitted|]; }
          }
        }
      }
    }
  }

  /** The whole batch keeps the invariant, grows the id set and only appends messages. */
  lemma {:induction false} EmitAllKeepsInv(hash: HashFn, canonical: Option<string>, refuses: ProgressMessage -> bool,
                                           st: EmitState, batch: seq<Component>)
    requires EmitInv(st)
    ensures var st' := EmitAll(hash, canonical, refuses, st, batch);
      EmitInv(st') && st.seen <= st'.seen && st.sent <= st'.sent
    decreases |batch|
  {
    if batch != [] {
      var mid := EmitAll(hash, canonical, refuses, st, batch[..|batch| - 1]);
      EmitAllKeepsInv(hash, canonical, refuses, st, batch[..|batch| - 1]);
      EmitStepKeepsInv(hash, canonical, refuses, mid, batch[|batch| - 1]);
    }
  }

  /** Once a component has thrown, the rest of the batch is not looked at. */
  lemma {:induction false} EmitAllAfterFault(hash: HashFn, canonical: Option<string>, refuses: ProgressMessage -> bool,
                                             st: EmitState, batch: seq<Component>)
    requires st.fault.Some?
    ensures EmitAll(hash, canonical, refuses, st, batch) == st
    decreases |batch|
  {
    if batch != [] {
      EmitAllAfterFault(hash, canonical, refuses, st, batch[..|batch| - 1]);
    }
  }

  /** The walk over the first i + 1 components is one more step after the walk over the first i. */
  lemma EmitAllPrefixStep(hash: HashFn, canonical: Option<string>, refuses: ProgressMessage -> bool,
                          st: EmitState, batch: seq<Component>, i: nat)
    requires i < |batch|
    ensures EmitAll(hash, canonical, refuses, st, batch[..i + 1])
         == EmitStep(hash, canonical, refuses, EmitAll(hash, canonical, refuses, st, batch[..i]), batch[i])
  {
    assert batch[..i + 1][..i] == batch[..i];
  }

  /** The walk over p + q is the walk over q started where the walk over p ended. */
  lemma {:induction false} EmitAllAppend(hash: HashFn, canonical: Option<string>, refuses: ProgressMessage -> bool,
                                         st: EmitState, p: seq<Component>, q: seq<Component>)
    ensures EmitAll(hash, canonical, refuses, st, p + q)
         == EmitAll(hash, canonical, refuses, EmitAll(hash, canonical, refuses, st, p), q)
    decreases |q|
  {
    if q == [] {
      assert p + q == p;
    } else {
      var front := q[..|q| - 1];
      var last := q[|q| - 1];
      var mid := EmitAll(hash, canonical, refuses, st, p);
      EmitAllAppend(hash, canonical, refuses, st, p, front);
      assert (p + q)[..|p + q| - 1] == p + front && (p + q)[|p + q| - 1] == last;
      assert EmitAll(hash, canonical, refuses, st, p + q)
          == EmitStep(hash, canonical, refuses, EmitAll(hash, canonical, refuses, st, p + front), last);
      assert EmitAll(hash, canonical, refuses, mid, q)
          == EmitStep(hash, canonical, refuses, EmitAll(hash, canonical, refuses, mid, front), last);
    }
  }

  /** A walk whose first i components ended in an exception is the walk over the whole batch. */
  lemma EmitAllFaultPrefix(hash: HashFn, canonical: Option<string>, refuses: ProgressMessage -> bool,
                           st: EmitState, batch: seq<Component>, i: nat)
    requires i <= |batch|
    requires EmitAll(hash, canonical, refuses, st, batch[..i]).fault.Some?
    ensures EmitAll(hash, canonical, refuses, st, batch) == EmitAll(hash, canonical, refuses, st, batch[..i])
  {
    EmitAllAppend(hash, canonical, refuses, st, batch[..i], batch[i..]);
    EmitAllAfterFault(hash, canonical, refuses, EmitAll(hash, canonical, refuses, st, batch[..i]), batch[i..]);
    assert batch[..i] + batch[i..] == batch;
  }

  /**
   * A walk that completes has met every component with evidence, and the id
   * set afterwards holds the ids of all their occurrences.
   */
  lemma {:induction false} EmitAllCovers(hash: HashFn, canonical: Option<string>, refuses: ProgressMessage -> bool,
                                         st: EmitState, batch: seq<Component>)
    requires EmitAll(hash, canonical, refuses, st, batch).fault.None?
    ensures var st' := EmitAll(hash, canonical, refuses, st, batch);
      forall k :: 0 <= k < |batch| ==>
        batch[k].evidence.Some? && IdSet(hash, batch[k].name, batch[k].evidence.value) <= st'.seen
    decreases |batch|
  {
    if batch != [] {
      var n := |batch| - 1;
      var init := batch[..n];
      var mid := EmitAll(hash, canonical, refuses, st, init);
      var st' := EmitAll(hash, canonical, refuses, st, batch);
      assert mid.fault.None?;
      EmitAllCovers(hash, canonical, refuses, st, init);
      EmitStepKeepsInvSeen(hash, canonical, refuses, mid, batch[n]);
      DedupSeen(hash, batch[n].name, mid.seen, batch[n].evidence.value);
      forall k | 0 <= k < |batch|
        ensures batch[k].evidence.Some? && IdSet(hash, batch[k].name, batch[k].evidence.value) <= st'.seen
      {
        if k < n { assert init[k] == batch[k]; }
      }
    }
  }

  /** The id set never shrinks across one component. */
  lemma EmitStepKeepsInvSeen(hash: HashFn, canonical: Option<string>, refuses: ProgressMessage -> bool,
                             st: EmitState, c: Component)
    ensures st.seen <= EmitStep(hash, canonical, refuses, st, c).seen
  {
    if st.fault.None? && c.evidence.Some? {
      DedupKeptIds(hash, c.name, st.seen, c.evidence.value);
    }
  }

  /**
   * When every component has evidence whose ids are all recorded, the walk
   * changes nothing: no id is added and no message is sent.
   */
  lemma {:induction false} EmitAllSilent(hash: HashFn, canonical: Option<string>, refuses: ProgressMessage -> bool,
                                         st: EmitState, batch: seq<Component>)
    requires st.fault.None?
    requires forall k :: 0 <= k < |batch| ==>
      batch[k].evidence.Some? && IdSet(hash, batch[k].name, batch[k].evidence.value) <= st.seen
    ensures EmitAll(hash, canonical, refuses, st, batch) == st
    decreases |batch|
  {
    if batch != [] {
      var n := |batch| - 1;
      var init := batch[..n];
      forall k | 0 <= k < |init|
        ensures init[k].evidence.Some? && IdSet(hash, init[k].name, init[k].evidence.value) <= st.seen
      {
        assert init[k] == batch[k];
      }
      EmitAllSilent(hash, canonical, refuses, st, init);
      DedupAllSeen(hash, batch[n].name, st.seen, batch[n].evidence.value);
    }
  }

  /**
   * Resubmitting a batch right after it was accepted without an exception
   * emits nothing and records nothing new.
   */
  lemma EmitResubmitSilent(hash: HashFn, canonical: Option<string>, refuses: ProgressMessage -> bool,
                           st: EmitState, batch: seq<Component>)
    requires EmitAll(hash, canonical, refuses, st, batch).fault.None?
    ensures var st' := EmitAll(hash, canonical, refuses, st, batch);
      EmitAll(hash, canonical, refuses, st', batch) == st'
  {
    EmitAllCovers(hash, canonical, refuses, st, batch);
    EmitAllSilent(hash, canonical, refuses, EmitAll(hash, canonical, refuses, st, batch), batch);
  }

  /**
   * Refused sends are swallowed: whatever the dispatcher refuses, the walk
   * records the same ids, streams the same findings and stops at the same
   * exception; only the accepted messages differ.
   */
  lemma {:induction false} EmitAllIgnoresRefusals(hash: HashFn, canonical: Option<string>,
                                                  refuses1: ProgressMessage -> bool, refuses2: ProgressMessage -> bool,
                                                  st: EmitState, batch: seq<Component>)
    ensures var a := EmitAll(hash, canonical, refuses1, st, batch);
      var b := EmitAll(hash, canonical, refuses2, st, batch);
      a.seen == b.seen && a.emitted == b.emitted && a.fault == b.fault
    decreases |batch|
  {
    if batch != [] {
      EmitAllIgnoresRefusals(hash, canonical, refuses1, refuses2, st, batch[..|batch| - 1]);
    }
  }

  /**
   * `m` is the DETECTION accept sends for `c` when deduplication kept `kept`:
   * c's bomRef, name, type and cryptoProperties reference, and exactly the kept
   * occurrences in order, each with its line and offset and with its location
   * rewritten against the canonical base path when there is one.
   */
  predicate DetectionOf(canonical: Option<string>, c: Component, kept: seq<Occurrence>, m: ProgressMessage)
  {
    && m.Detection?
    && m.component.bomRef == c.bomRef && m.component.name == c.name && m.component.kind == c.kind
    && m.component.cryptoProperties == c.cryptoProperties
    && m.component.evidence.Some? && |m.component.evidence.value| == |kept|
    && forall k :: 0 <= k < |kept| ==>
         && m.component.evidence.value[k].line == kept[k].line
         && m.component.evidence.value[k].offset == kept[k].offset
         && (canonical.None? ==> m.component.evidence.value[k].location == kept[k].location)
         && (canonical.Some? ==>
               SanitizeLocation(canonical.value, kept[k].location).Some? &&
               m.component.evidence.value[k].location == SanitizeLocation(canonical.value, kept[k].location).value)
  }

  /**
   * What one component of accept sends. Without an exception, the ids handed
   * over are those of the first-new occurrences, and at most one message is
   * appended: the DETECTION of exactly those occurrences; nothing is appended
   * when none is left or when the dispatcher refuses that DETECTION. The
   * substring exception is raised exactly when some first-new location equals
   * the canonical base path, and then nothing is sent or handed over.
   */
  lemma EmitStepDetection(hash: HashFn, canonical: Option<string>, refuses: ProgressMessage -> bool,
                          st: EmitState, c: Component)
    requires st.fault.None? && c.evidence.Some?
    ensures var r := EmitStep(hash, canonical, refuses, st, c);
      var kept := KeepFirstNew(hash, c.name, st.seen, c.evidence.value);
      && (r.fault == Some(IndexOutOfRange) <==>
            kept != [] && canonical.Some? &&
            exists k :: 0 <= k < |kept| && SanitizeLocation(canonical.value, kept[k].location).None?)
      && (r.fault.Some? ==> r.sent == st.sent && r.emitted == st.emitted)
      && (r.fault.None? ==>
            && r.emitted == st.emitted + IdSeq(hash, c.name, kept)
            && (kept == [] ==> r.sent == st.sent)
            && (r.sent == st.sent ==> kept == [] || exists m :: DetectionOf(canonical, c, kept, m) && refuses(m))
            && (r.sent != st.sent ==>
                  |r.sent| == |st.sent| + 1 && r.sent[..|st.sent|] == st.sent &&
                  DetectionOf(canonical, c, kept, r.sent[|st.sent|]) && !refuses(r.sent[|st.sent|])))
  {
    var occs := c.evidence.value;
    var d := Dedup(hash, c.name, st.seen, occs);
    DedupIsKeepFirstNew(hash, c.name, st.seen, occs);
    if d.kept != [] {
      var copy := CopyCryptoAsset(c).(evidence := Some(d.kept));
      var s := SanitizeComponent(canonical, copy);
      SanitizeComponentShape(canonical, copy);
      if canonical.Some? {
        SanitizeComponentRewrites(canonical.value, copy);
      } else {
        SanitizeComponentNoOp(canonical, copy);
      }
      if s.completed {
        assert DetectionOf(canonical, c, d.kept, Detection(s.value));
      }
    }
  }

  /**
   * `m` is a DETECTION of `c` itself: its identity, and a non-empty list of
   * occurrences whose lines and offsets are those of occurrences of `c`.
   */
  predicate DetectionFrom(c: Component, m: ProgressMessage)
  {
    && m.Detection? && c.evidence.Some?
    && m.component.bomRef == c.bomRef && m.component.name == c.name && m.component.kind == c.kind
    && m.component.evidence.Some? && m.component.evidence.value != []
    && forall k :: 0 <= k < |m.component.evidence.value| ==>
         exists o :: o in c.evidence.value &&
           o.line == m.component.evidence.value[k].line && o.offset == m.component.evidence.value[k].offset
  }

  /** A DETECTION of the first-new occurrences of `c` is a DETECTION of `c`. */
  lemma DetectionOfIsFrom(hash: HashFn, canonical: Option<string>, seen: set<int>, c: Component, m: ProgressMessage)
    requires c.evidence.Some?
    requires var kept := KeepFirstNew(hash, c.name, seen, c.evidence.value);
      kept != [] && DetectionOf(canonical, c, kept, m)
    ensures DetectionFrom(c, m)
  {
    var kept := KeepFirstNew(hash, c.name, seen, c.evidence.value);
    DedupIsKeepFirstNew(hash, c.name, seen, c.evidence.value);
    DedupKeptIds(hash, c.name, seen, c.evidence.value);
    forall k | 0 <= k < |m.component.evidence.value|
      ensures exists o :: o in c.evidence.value &&
                o.line == m.component.evidence.value[k].line && o.offset == m.component.evidence.value[k].offset
    {
      assert kept[k] in c.evidence.value;
    }
  }

  /**
   * What accept sends for a whole batch: the old messages stay, at most one
   * message per component is added, and every added message is the DETECTION
   * of some component of the batch.
   */
  lemma {:induction false} EmitAllDetections(hash: HashFn, canonical: Option<string>, refuses: ProgressMessage -> bool,
                                             st: EmitState, batch: seq<Component>)
    ensures var r := EmitAll(hash, canonical, refuses, st, batch);
      && st.sent <= r.sent && |r.sent| <= |st.sent| + |batch|
      && forall j :: |st.sent| <= j < |r.sent| ==>
           exists i :: 0 <= i < |batch| && DetectionFrom(batch[i], r.sent[j])
    decreases |batch|
  {
    if batch != [] {
      var n := |batch| - 1;
      var init := batch[..n];
      var c := batch[n];
      var mid := EmitAll(hash, canonical, refuses, st, init);
      var r := EmitAll(hash, canonical, refuses, st, batch);
      EmitAllDetections(hash, canonical, refuses, st, init);
      assert r == EmitStep(hash, canonical, refuses, mid, c);
      if mid.fault.None? && c.evidence.Some? {
        EmitStepDetection(hash, canonical, refuses, mid, c);
        if r.sent != mid.sent {
          DetectionOfIsFrom(hash, canonical, mid.seen, c, r.sent[|mid.sent|]);
        }
      }
      assert mid.sent <= r.sent && |r.sent| <= |mid.sent| + 1;
      forall j | |st.sent| <= j < |r.sent|
        ensures exists i :: 0 <= i < |batch| && DetectionFrom(batch[i], r.sent[j])
      {
        if j < |mid.sent| {
          var i :| 0 <= i < |init| && DetectionFrom(init[i], mid.sent[j]);
          assert init[i] == batch[i] && r.sent[j] == mid.sent[j];
        } else {
          assert DetectionFrom(batch[n], r.sent[j]);
        }
      }
    }
  }

  /**
   * Component i of a batch adds at most one message to what the components
   * before it sent, and that message is a DETECTION of component i.
   */
  lemma EmitAllOnePerComponent(hash: HashFn, canonical: Option<string>, refuses: ProgressMessage -> bool,
                               st: EmitState, batch: seq<Component>, i: nat)
    requires i < |batch|
    ensures var before := EmitAll(hash, canonical, refuses, st, batch[..i]).sent;
      var after := EmitAll(hash, canonical, refuses, st, batch[..i + 1]).sent;
      && before <= after && |after| <= |before| + 1
      && (|after| == |before| + 1 ==> DetectionFrom(batch[i], after[|before|]))
  {
    var mid := EmitAll(hash, canonical, refuses, st, batch[..i]);
    var c := batch[i];
    EmitAllPrefixStep(hash, canonical, refuses, st, batch, i);
    var r := EmitStep(hash, canonical, refuses, mid, c);
    if mid.fault.None? && c.evidence.Some? {
      EmitStepDetection(hash, canonical, refuses, mid, c);
      if r.sent != mid.sent {
        DetectionOfIsFrom(hash, canonical, mid.seen, c, r.sent[|mid.sent|]);
      }
    }
  }

  /** The scanner's bookkeeping; one object per scan session. */
  class ScannerService {
    const hash: HashFn
    const hasDispatcher: bool
    const projectDirectory: string
    /** File.getCanonicalPath; None stands for its IOException. */
    const canonicalPath: string -> Option<string>
    /** Ids of every occurrence deduplication has seen. */
    var findings: set<int>
    /** The components of the cumulative output file. */
    var store: seq<Component>
    /** Messages the dispatcher accepted, in order. */
    var sent: seq<ProgressMessage>
    /** Ids of the occurrences handed to the dispatcher in DETECTION messages. */
    ghost var emitted: seq<int>

    ghost predicate Valid()
      reads this
    {
      EmitInv(EmitState(findings, sent, emitted, None))
    }

    /** The canonical project path that sanitisation strips, or None when resolving it fails. */
    function Canonical(): Option<string>
    {
      canonicalPath(projectDirectory)
    }

    constructor (hash: HashFn, hasDispatcher: bool, projectDirectory: string,
                 canonicalPath: string -> Option<string>)
      ensures Valid()
      ensures this.hash == hash && this.hasDispatcher == hasDispatcher
      ensures this.projectDirectory == projectDirectory && this.canonicalPath == canonicalPath
      ensures findings == {} && store == [] && sent == [] && emitted == []
    {
      this.hash := hash;
      this.hasDispatcher := hasDispatcher;
      this.projectDirectory := projectDirectory;
      this.canonicalPath := canonicalPath;
      findings := {};
      store := [];
      sent := [];
      emitted := [];
    }

    /**
     * deduplicateFindings. None stands for the NullPointerException raised on
     * a component without evidence.
     */
    method DeduplicateFindings(c: Component) returns (kept: Option<seq<Occurrence>>)
      requires Valid()
      modifies this`findings
      ensures Valid() && old(findings) <= findings
      ensures c.evidence.None? ==> kept.None? && findings == old(findings)
      ensures c.evidence.Some? ==>
        var d := Dedup(hash, c.name, old(findings), c.evidence.value);
        kept == Some(d.kept) && findings == d.seen
    {
      if c.evidence.None? {
        return None;
      }
      var occs := c.evidence.value;
      var deduplicated := [];
      var i := 0;
      while i < |occs|
        invariant 0 <= i <= |occs|
        invariant Dedup(hash, c.name, old(findings), occs[..i]) == DedupResult(deduplicated, findings)
      {
        var findingId := FindingId(hash, c.name, occs[i]);
        if findingId !in findings {
          deduplicated := deduplicated + [occs[i]];
          findings := findings + {findingId};
        }
        assert occs[..i + 1][..i] == occs[..i];
        i := i + 1;
      }
      assert occs[..|occs|] == occs;
      DedupKeptIds(hash, c.name, old(findings), occs);
      return Some(deduplicated);
    }

    /**
     * Deduplication shaped as the unit test uses it: the copied component
     * carrying only the new occurrences, or None when nothing is new. A
     * component without evidence throws, as deduplicateFindings does.
     */
    method DeduplicateComponent(c: Component) returns (r: Outcome<Option<Component>>)
      requires Valid()
      modifies this`findings
      ensures Valid() && old(findings) <= findings
      ensures c.evidence.None? ==> r == Thrown(NullEvidence) && findings == old(findings)
      ensures c.evidence.Some? ==>
        var d := Dedup(hash, c.name, old(findings), c.evidence.value);
        && findings == d.seen
        && r.Ok?
        && (r.value.Some? <==> d.kept != [])
        && (r.value.Some? ==> r.value.value == CopyCryptoAsset(c).(evidence := Some(d.kept)))
    {
      var kept := DeduplicateFindings(c);
      if kept.None? {
        return Thrown(NullEvidence);
      }
      if kept.value == [] {
        return Ok(None);
      }
      return Ok(Some(CopyCryptoAsset(c).(evidence := Some(kept.value))));
    }

    /**
     * The body of accept's forEach for one component: deduplicate; when
     * something is new, copy it with the kept occurrences, sanitise it and
     * send it. The returned fault is an exception that escapes the body.
     */
    method EmitComponent(c: Component, refuses: ProgressMessage -> bool) returns (fault: Option<Fault>)
      requires Valid()
      modifies this`findings, this`sent, this`emitted
      ensures Valid()
      ensures EmitStep(hash, Canonical(), refuses, EmitState(old(findings), old(sent), old(emitted), None), c)
           == EmitState(findings, sent, emitted, fault)
    {
      ghost var st0 := EmitState(findings, sent, emitted, None);
      EmitStepKeepsInv(hash, Canonical(), refuses, st0, c);
      fault := None;
      var kept := DeduplicateFindings(c);
      if kept.None? {
        fault := Some(NullEvidence);
      } else if kept.value != [] {
        var newComponent := CopyCryptoAsset(c).(evidence := Some(kept.value));
        var sanitized, completed := SanitizeOccurrence(canonicalPath(projectDirectory), newComponent);
        if !completed {
          fault := Some(IndexOutOfRange);
        } else {
          emitted := emitted + IdSeq(hash, c.name, kept.value);
          var message := Detection(sanitized);
          if !refuses(message) {
            sent := sent + [message];
          }
        }
      }
    }

    /**
     * accept: the batch always joins the cumulative store; only with a
     * dispatcher are new findings deduplicated, sanitised and streamed. The
     * returned fault is an exception that escapes accept.
     */
    method Accept(batch: seq<Component>, refuses: ProgressMessage -> bool) returns (fault: Option<Fault>)
      requires Valid()
      modifies this
      ensures Valid()
      ensures store == old(store) + batch
      ensures old(findings) <= findings && old(sent) <= sent
      ensures !hasDispatcher ==>
        findings == old(findings) && sent == old(sent) && emitted == old(emitted) && fault.None?
      ensures hasDispatcher ==>
        EmitAll(hash, Canonical(), refuses, EmitState(old(findings), old(sent), old(emitted), None), batch)
          == EmitState(findings, sent, emitted, fault)
    {
      store := store + batch;
      fault := None;
      if !hasDispatcher {
        return;
      }
      ghost var canonical := Canonical();
      ghost var st0 := EmitState(findings, sent, emitted, None);
      EmitAllKeepsInv(hash, canonical, refuses, st0, batch);
      var i := 0;
      while i < |batch|
        invariant 0 <= i <= |batch|
        invariant store == old(store) + batch
        invariant fault.None?
        invariant EmitAll(hash, canonical, refuses, st0, batch[..i]) == EmitState(findings, sent, emitted, None)
        invariant Valid()
      {
        fault := EmitComponent(batch[i], refuses);
        EmitAllPrefixStep(hash, canonical, refuses, st0, batch, i);
        i := i + 1;
        if fault.Some? {
          EmitAllFaultPrefix(hash, canonical, refuses, st0, batch, i);
          return;
        }
      }
      assert batch[..i] == batch;
    }

    /**
     * getBOM: sanitise every component of the cumulative store in place and
     * hand the store back; an exception from a location equal to the project
     * path escapes after the components before it were rewritten.
     */
    method GetBom() returns (r: Outcome<seq<Component>>)
      requires Valid()
      modifies this`store
      ensures Valid()
      ensures var s := SanitizeStore(Canonical(), old(store));
        && store == s.value
        && (s.completed ==> r == Ok(store))
        && (!s.completed ==> r == Thrown(IndexOutOfRange))
    {
      var canonical := canonicalPath(projectDirectory);
      ghost var comps := store;
      var i := 0;
      while i < |store|
        invariant 0 <= i <= |store| == |comps|
        invariant SanitizeStore(canonical, comps[..i]) == Rewritten(store[..i], true)
        invariant store[i..] == comps[i..]
      {
        assert store[i] == comps[i];
        var component, completed := SanitizeOccurrence(canonical, store[i]);
        SanitizeStorePrefixStep(canonical, comps, i);
        store := store[i := component];
        assert store[..i + 1] == store[..i] + [component];
        assert store[i + 1..] == comps[i + 1..];
        if !completed {
          SanitizeStoreStops(canonical, comps[..i + 1], comps[i + 1..]);
          assert comps[..i + 1] + comps[i + 1..] == comps;
          assert store == store[..i + 1] + comps[i + 1..];
          return Thrown(IndexOutOfRange);
        }
        i := i + 1;
      }
      assert store[..i] == store && comps[..i] == comps;
      return Ok(store);
    }
  }
}
