/**
 * Path sanitisation: occurrence locations that start with the canonical
 * project path lose that prefix and exactly one more character (the separator).
 */
module Sanitize {
  import opened CycloneDx

  predicate StartsWith(s: string, prefix: string)
  {
    |prefix| <= |s| && s[..|prefix|] == prefix
  }

  /**
   * The rewrite of one location against the base path. None stands for the
   * StringIndexOutOfBoundsException of substring(|base| + 1) on a location
   * that equals the base path.
   */
  function SanitizeLocation(base: string, loc: string): (r: Option<string>)
    ensures r.None? <==> StartsWith(loc, base) && |loc| == |base|
    ensures r.Some? && StartsWith(loc, base) ==> loc == base + [loc[|base|]] + r.value
    ensures !StartsWith(loc, base) ==> r == Some(loc)
  {
    if StartsWith(loc, base) then
      if |base| + 1 <= |loc| then Some(loc[|base| + 1..]) else None
    else Some(loc)
  }

  /** A rewritten value, and whether the rewrite ran to the end without an exception. */
  datatype Rewritten<T> = Rewritten(value: T, completed: bool)

  /** The index of the first occurrence whose rewrite throws, or |occs| when none does. */
  function FirstFailure(base: string, occs: seq<Occurrence>): (f: nat)
    ensures f <= |occs|
    ensures forall i :: 0 <= i < f ==> SanitizeLocation(base, occs[i].location).Some?
    ensures f < |occs| ==> SanitizeLocation(base, occs[f].location).None?
    decreases |occs|
  {
    if occs == [] then 0
    else if SanitizeLocation(base, occs[0].location).None? then 0
    else 1 + FirstFailure(base, occs[1..])
  }

  /**
   * The in-place forEach over the occurrence list: every occurrence before the
   * first failing one is rewritten, the rest keep their location.
   */
  function SanitizeOccurrences(base: string, occs: seq<Occurrence>): (r: Rewritten<seq<Occurrence>>)
    ensures |r.value| == |occs|
  {
    var f := FirstFailure(base, occs);
    Rewritten(
      seq(|occs|, i requires 0 <= i < |occs| =>
        if i < f then occs[i].(location := SanitizeLocation(base, occs[i].location).value) else occs[i]),
      f == |occs|)
  }

  /**
   * sanitizeOccurrence on one component. `canonical` is the canonical project
   * path, or None when resolving it threw an IOException.
   */
  function SanitizeComponent(canonical: Option<string>, c: Component): (r: Rewritten<Component>)
    ensures !r.completed ==> canonical.Some? && c.evidence.Some? && c.evidence.value != []
  {
    match c.evidence
    case None => Rewritten(c, true)
    case Some(occs) =>
      if occs == [] then Rewritten(c, true)
      else match canonical
        case None => Rewritten(c, true)
        case Some(base) =>
          var r := SanitizeOccurrences(base, occs);
          Rewritten(c.(evidence := Some(r.value)), r.completed)
  }

  /** The imperative loop of sanitizeOccurrence, proved against SanitizeComponent. */
  method SanitizeOccurrence(canonical: Option<string>, c: Component) returns (r: Component, completed: bool)
    ensures Rewritten(r, completed) == SanitizeComponent(canonical, c)
  {
    if c.evidence.None? || c.evidence.value == [] {
      return c, true;
    }
    if canonical.None? {
      return c, true;
    }
    var base := canonical.value;
    var occs := c.evidence.value;
    var list := occs;
    var i := 0;
    while i < |list|
      invariant 0 <= i <= |list| == |occs|
      invariant i <= FirstFailure(base, occs)
      invariant forall k :: 0 <= k < i ==>
        list[k] == occs[k].(location := SanitizeLocation(base, occs[k].location).value)
      invariant forall k :: i <= k < |occs| ==> list[k] == occs[k]
    {
      var loc := list[i].location;
      if StartsWith(loc, base) {
        if |loc| < |base| + 1 {
          assert list == SanitizeOccurrences(base, occs).value;
          return c.(evidence := Some(list)), false;
        }
        list := list[i := list[i].(location := loc[|base| + 1..])];
      }
      i := i + 1;
    }
    assert list == SanitizeOccurrences(base, occs).value;
    return c.(evidence := Some(list)), true;
  }

  /** A location made of the base path, one separator and a rest becomes the rest. */
  lemma StripsBaseAndSeparator(base: string, sep: char, rest: string)
    ensures SanitizeLocation(base, base + [sep] + rest) == Some(rest)
  {
    var loc := base + [sep] + rest;
    assert loc[..|base|] == base;
    assert loc[|base| + 1..] == rest;
  }

  /** A location that does not start with the base path is left as it is. */
  lemma OtherLocationsKept(base: string, loc: string)
    requires !StartsWith(loc, base)
    ensures SanitizeLocation(base, loc) == Some(loc)
  {
  }

  /** A location equal to the base path makes substring go out of range. */
  lemma LocationEqualToBaseThrows(base: string)
    ensures SanitizeLocation(base, base).None?
  {
    assert base[..|base|] == base;
  }

  /**
   * startsWith compares strings, not path segments: a sibling directory whose
   * name extends the base name loses the shared prefix and one more character.
   */
  lemma SiblingDirectoryIsCut()
    ensures SanitizeLocation("/repo", "/repo2/A.java") == Some("/A.java")
  {
    var loc := "/repo2/A.java";
    assert loc[..5] == "/repo";
    assert loc[6..] == "/A.java";
  }

  /**
   * sanitizeOccurrence changes nothing but locations: the other fields of the
   * component, the number of occurrences, their lines and offsets all stay.
   */
  lemma SanitizeComponentShape(canonical: Option<string>, c: Component)
    ensures var r := SanitizeComponent(canonical, c).value;
      && r.bomRef == c.bomRef && r.name == c.name && r.kind == c.kind
      && r.cryptoProperties == c.cryptoProperties
      && r.evidence.Some? == c.evidence.Some?
      && (c.evidence.Some? ==>
            |r.evidence.value| == |c.evidence.value| &&
            forall k :: 0 <= k < |c.evidence.value| ==>
              r.evidence.value[k].line == c.evidence.value[k].line &&
              r.evidence.value[k].offset == c.evidence.value[k].offset)
  {
  }

  /**
   * The component is returned untouched when it has no evidence, an empty
   * occurrence list, or when the base path cannot be canonicalised.
   */
  lemma SanitizeComponentNoOp(canonical: Option<string>, c: Component)
    requires c.evidence.None? || c.evidence.value == [] || canonical.None?
    ensures SanitizeComponent(canonical, c) == Rewritten(c, true)
  {
  }

  /**
   * With a canonical base path, the rewrite completes iff no location equals
   * the base path; then every location is its own SanitizeLocation rewrite.
   */
  lemma SanitizeComponentRewrites(base: string, c: Component)
    requires c.evidence.Some?
    ensures var r := SanitizeComponent(Some(base), c);
      && (r.completed <==> forall k :: 0 <= k < |c.evidence.value| ==>
            SanitizeLocation(base, c.evidence.value[k].location).Some?)
      && (r.completed ==> forall k :: 0 <= k < |c.evidence.value| ==>
            r.value.evidence.value[k].location == SanitizeLocation(base, c.evidence.value[k].location).value)
  {
    var occs := c.evidence.value;
    var f := FirstFailure(base, occs);
    if f < |occs| {
      assert SanitizeLocation(base, occs[f].location).None?;
    }
  }

  /**
   * The forEach of getBOM over the store: components are sanitised in order
   * and the first exception stops the walk, leaving the rest untouched.
   */
  function SanitizeStore(canonical: Option<string>, comps: seq<Component>): (r: Rewritten<seq<Component>>)
    ensures |r.value| == |comps|
    decreases |comps|
  {
    if comps == [] then Rewritten([], true)
    else
      var n := |comps| - 1;
      var r := SanitizeStore(canonical, comps[..n]);
      if !r.completed then Rewritten(r.value + [comps[n]], false)
      else
        var s := SanitizeComponent(canonical, comps[n]);
        Rewritten(r.value + [s.value], s.completed)
  }

  /** After a completed prefix, one more component is one more sanitiseOccurrence. */
  lemma SanitizeStorePrefixStep(canonical: Option<string>, comps: seq<Component>, i: nat)
    requires i < |comps| && SanitizeStore(canonical, comps[..i]).completed
    ensures var c := SanitizeComponent(canonical, comps[i]);
      SanitizeStore(canonical, comps[..i + 1])
        == Rewritten(SanitizeStore(canonical, comps[..i]).value + [c.value], c.completed)
  {
    assert comps[..i + 1][..i] == comps[..i];
  }

  /** When the walk completes, every component is its own sanitised copy. */
  lemma {:induction false} SanitizeStoreCompleted(canonical: Option<string>, comps: seq<Component>)
    requires SanitizeStore(canonical, comps).completed
    ensures forall i :: 0 <= i < |comps| ==>
      SanitizeComponent(canonical, comps[i]) == Rewritten(SanitizeStore(canonical, comps).value[i], true)
    decreases |comps|
  {
    if comps != [] {
      var n := |comps| - 1;
      var init := comps[..n];
      var r0 := SanitizeStore(canonical, init);
      var r := SanitizeStore(canonical, comps);
      assert r0.completed;
      SanitizeStoreCompleted(canonical, init);
      forall i | 0 <= i < |comps|
        ensures SanitizeComponent(canonical, comps[i]) == Rewritten(r.value[i], true)
      {
        if i < n {
          assert r.value[i] == r0.value[i];
          assert init[i] == comps[i];
        }
      }
    }
  }

  /**
   * The walk over `comps` that produced `out` threw at component f: those
   * before it were sanitised, f was partly rewritten, those after it are untouched.
   */
  predicate ThrewAt(canonical: Option<string>, comps: seq<Component>, out: seq<Component>, f: int)
    requires |out| == |comps|
  {
    && 0 <= f < |comps|
    && (forall i :: 0 <= i < f ==> SanitizeComponent(canonical, comps[i]) == Rewritten(out[i], true))
    && SanitizeComponent(canonical, comps[f]) == Rewritten(out[f], false)
    && out[f + 1..] == comps[f + 1..]
  }

  /** A component appended untouched after the throw keeps the throw where it was. */
  lemma ThrewAtExtend(canonical: Option<string>, comps: seq<Component>, out: seq<Component>, f: int, c: Component)
    requires |out| == |comps| && ThrewAt(canonical, comps, out, f)
    ensures ThrewAt(canonical, comps + [c], out + [c], f)
  {
    assert (out + [c])[f + 1..] == out[f + 1..] + [c];
    assert (comps + [c])[f + 1..] == comps[f + 1..] + [c];
    forall i | 0 <= i <= f
      ensures (comps + [c])[i] == comps[i] && (out + [c])[i] == out[i]
    {
    }
  }

  /** When the walk throws, it threw at some component. */
  lemma {:induction false} SanitizeStoreThrown(canonical: Option<string>, comps: seq<Component>)
    requires !SanitizeStore(canonical, comps).completed
    ensures exists f :: ThrewAt(canonical, comps, SanitizeStore(canonical, comps).value, f)
    decreases |comps|
  {
    assert comps != [];
    var n := |comps| - 1;
    var init := comps[..n];
    assert comps == init + [comps[n]];
    var r0 := SanitizeStore(canonical, init);
    var r := SanitizeStore(canonical, comps);
    if r0.completed {
      SanitizeStoreCompleted(canonical, init);
      forall i | 0 <= i < n
        ensures SanitizeComponent(canonical, comps[i]) == Rewritten(r.value[i], true)
      {
        assert r.value[i] == r0.value[i] && init[i] == comps[i];
      }
      assert r.value[n + 1..] == comps[n + 1..];
      assert ThrewAt(canonical, comps, r.value, n);
    } else {
      SanitizeStoreThrown(canonical, init);
      var f :| ThrewAt(canonical, init, r0.value, f);
      ThrewAtExtend(canonical, init, r0.value, f, comps[n]);
      assert r.value == r0.value + [comps[n]];
    }
  }

  /** Once the walk has thrown, later components are appended unchanged. */
  lemma {:induction false} SanitizeStoreStops(canonical: Option<string>, p: seq<Component>, q: seq<Component>)
    requires !SanitizeStore(canonical, p).completed
    ensures SanitizeStore(canonical, p + q) == Rewritten(SanitizeStore(canonical, p).value + q, false)
    decreases |q|
  {
    if q == [] {
      assert p + q == p;
      assert SanitizeStore(canonical, p).value + q == SanitizeStore(canonical, p).value;
    } else {
      var q' := q[..|q| - 1];
      var last := q[|q| - 1];
      var v := SanitizeStore(canonical, p).value;
      SanitizeStoreStops(canonical, p, q');
      assert (p + q)[..|p + q| - 1] == p + q';
      assert (p + q)[|p + q| - 1] == last;
      var r' := SanitizeStore(canonical, p + q');
      assert r' == Rewritten(v + q', false);
      assert SanitizeStore(canonical, p + q) == Rewritten(r'.value + [last], false);
      assert v + q' + [last] == v + q;
    }
  }
}
