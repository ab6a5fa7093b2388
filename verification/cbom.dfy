/**
 * The CBOM wrapper around a CycloneDX document: in-place merge of component
 * and dependency lists, and the metadata block written at finalisation.
 */
module Cbom {
  import opened CycloneDx

  /** A dependency edge; opaque here, only ever concatenated. */
  datatype Dependency = Dependency(ref: string, dependsOn: seq<string>)

  datatype Property = Property(name: string, value: string)

  /** The tool entry: a service name and the name of its provider organisation. */
  datatype Tool = Tool(serviceName: string, providerName: string)

  datatype Metadata = Metadata(timestamp: int, tool: Tool, properties: seq<Property>)

  const ActionName := "CBOMkit"
  const ActionOrg := "PQCA"

  /**
   * The list `mine` after addAll of `theirs`: only when both lists are
   * present; an absent list on either side leaves `mine` as it was.
   */
  function MergeList<T>(mine: Option<seq<T>>, theirs: Option<seq<T>>): (r: Option<seq<T>>)
    ensures r.Some? <==> mine.Some?
    ensures r.Some? ==> mine.value <= r.value
  {
    if mine.Some? && theirs.Some? then Some(mine.value + theirs.value) else mine
  }

  /**
   * Merging keeps the receiving list's presence, puts the receiving list's
   * elements first and the other's after them, in order.
   */
  lemma MergeListConcatenates<T>(mine: Option<seq<T>>, theirs: Option<seq<T>>)
    ensures var r := MergeList(mine, theirs);
      && (r.Some? <==> mine.Some?)
      && (theirs.None? ==> r == mine)
      && (mine.Some? && theirs.Some? ==>
            |r.value| == |mine.value| + |theirs.value| &&
            r.value[..|mine.value|] == mine.value &&
            r.value[|mine.value|..] == theirs.value)
  {
  }

  /**
   * Merging A with B and B with A gives lists of the same length holding the
   * same elements with the same multiplicities.
   */
  lemma MergeListSymmetricAsMultiset<T>(a: seq<T>, b: seq<T>)
    ensures var ab := MergeList(Some(a), Some(b)).value;
      var ba := MergeList(Some(b), Some(a)).value;
      |ab| == |ba| == |a| + |b| && multiset(ab) == multiset(ba)
  {
  }

  /** The property list addMetadata builds, in the order it adds them. */
  function MetadataProperties(gitUrl: string, revision: string, commit: string, subFolder: Option<string>): (r: seq<Property>)
    ensures 3 <= |r| <= 4 && (|r| == 4 <==> subFolder.Some?)
    ensures forall i, j :: 0 <= i < j < |r| ==> r[i].name != r[j].name
  {
    [Property("gitUrl", gitUrl), Property("revision", revision), Property("commit", commit)] +
    (if subFolder.Some? then [Property("subfolder", subFolder.value)] else [])
  }

  /** The value of the first property called `name`, if any. */
  function PropertyValue(props: seq<Property>, name: string): (r: Option<string>)
    ensures r.Some? <==> exists k :: 0 <= k < |props| && props[k].name == name
    ensures r.Some? ==>
      exists k :: 0 <= k < |props| && props[k] == Property(name, r.value) &&
        forall j :: 0 <= j < k ==> props[j].name != name
    decreases |props|
  {
    if props == [] then None
    else if props[0].name == name then Some(props[0].value)
    else
      var r := PropertyValue(props[1..], name);
      if r.Some? then
        ghost var k :| 0 <= k < |props[1..]| && props[1..][k] == Property(name, r.value) &&
          forall j :: 0 <= j < k ==> props[1..][j].name != name;
        assert props[k + 1] == Property(name, r.value);
        assert forall j :: 1 <= j < k + 1 ==> props[j] == props[1..][j - 1];
        r
      else
        assert forall k :: 1 <= k < |props| ==> props[k] == props[1..][k - 1];
        r
  }

  /**
   * Each metadata field can be read back by its name, carrying the value
   * passed in; "subfolder" is there exactly when a sub-folder was given.
   */
  lemma MetadataReadBack(gitUrl: string, revision: string, commit: string, subFolder: Option<string>)
    ensures var props := MetadataProperties(gitUrl, revision, commit, subFolder);
      && PropertyValue(props, "gitUrl") == Some(gitUrl)
      && PropertyValue(props, "revision") == Some(revision)
      && PropertyValue(props, "commit") == Some(commit)
      && PropertyValue(props, "subfolder") == subFolder
  {
    var props := MetadataProperties(gitUrl, revision, commit, subFolder);
    var tail := props[3..];
    assert props[1..][1..][1..] == tail;
    if subFolder.Some? {
      assert tail == [Property("subfolder", subFolder.value)];
      assert PropertyValue(tail, "subfolder") == subFolder;
    } else {
      assert tail == [];
    }
    assert PropertyValue(props[1..][1..], "subfolder") == PropertyValue(tail, "subfolder");
    assert PropertyValue(props[1..], "subfolder") == PropertyValue(tail, "subfolder");
  }

  /** The CBOM record, with the fields of its CycloneDX document this core touches. */
  class Cbom {
    var components: Option<seq<Component>>
    var dependencies: Option<seq<Dependency>>
    var metadata: Option<Metadata>

    constructor (components: Option<seq<Component>>, dependencies: Option<seq<Dependency>>, metadata: Option<Metadata>)
      ensures this.components == components && this.dependencies == dependencies && this.metadata == metadata
    {
      this.components := components;
      this.dependencies := dependencies;
      this.metadata := metadata;
    }

    /**
     * merge: append the other document's components and dependencies to
     * this one's, each only when both lists are present. Never fails.
     */
    method Merge(other: Cbom)
      modifies this
      ensures components == MergeList(old(components), old(other.components))
      ensures dependencies == MergeList(old(dependencies), old(other.dependencies))
      ensures metadata == old(metadata)
      ensures other != this ==>
        other.components == old(other.components) && other.dependencies == old(other.dependencies)
    {
      var theirComponents := other.components;
      var theirDependencies := other.dependencies;
      if components.Some? {
        if theirComponents.Some? {
          components := Some(components.value + theirComponents.value);
        }
      }
      if dependencies.Some? {
        if theirDependencies.Some? {
          dependencies := Some(dependencies.value + theirDependencies.value);
        }
      }
    }

    /**
     * addMetadata: a fresh metadata block stamped `now`, naming the tool
     * CBOMkit by PQCA, with properties gitUrl, revision, commit and, when
     * given, subfolder. The previous block is discarded.
     */
    method AddMetadata(gitUrl: string, revision: string, commit: string, subFolder: Option<string>, now: int)
      modifies this`metadata
      ensures metadata == Some(Metadata(now, Tool(ActionName, ActionOrg), MetadataProperties(gitUrl, revision, commit, subFolder)))
      ensures components == old(components) && dependencies == old(dependencies)
    {
      var tool := Tool(ActionName, ActionOrg);
      var properties: seq<Property> := [];
      properties := properties + [Property("gitUrl", gitUrl)];
      properties := properties + [Property("revision", revision)];
      properties := properties + [Property("commit", commit)];
      if subFolder.Some? {
        properties := properties + [Property("subfolder", subFolder.value)];
      }
      assert properties == MetadataProperties(gitUrl, revision, commit, subFolder);
      metadata := Some(Metadata(now, tool, properties));
    }
  }
}
