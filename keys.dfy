/** PipelineKeys ("<project id>_<definition id>") and the reverse-index tags
    ("<kind>_<resource id>"), with the two ways the scanner takes them apart:
    `split("_")` (first separator) and `rsplit("_", 1)` (last separator). */
module PipelineKeys {
  import opened Wrappers
  import opened Text

  /** A PipelineKey: the join key between definitions, builds and permissions. */
  type Key = string

  const Separator: char := '_'

  /** `project + "_" + str(definition_id)` */
  function EncodeKey(projectId: string, definitionId: nat): (k: Key)
    ensures StartsWith(k, projectId)
    ensures |k| > |projectId| + 1 && k[|projectId|] == Separator
  {
    StartsWithConcat(projectId, [Separator] + Decimal(definitionId));
    assert projectId + [Separator] + Decimal(definitionId) == projectId + ([Separator] + Decimal(definitionId));
    projectId + [Separator] + Decimal(definitionId)
  }

  /** `project, definition_id = key.split("_")`: the unpacking raises
      ValueError unless the key holds exactly one separator. */
  function DecodeKey(k: Key): (r: Result<(string, string)>)
    ensures r.Ok? <==> Occurrences(k, Separator) == 1
    ensures r.Ok? ==> k == r.value.0 + [Separator] + r.value.1
  {
    SplitCount(k, Separator);
    JoinSplit(k, Separator);
    var parts := Split(k, Separator);
    if |parts| == 2 then
      assert Join(parts, Separator) == parts[0] + [Separator] + Join(parts[1..], Separator);
      Ok((parts[0], parts[1]))
    else
      Err(ValueError("expected exactly one '_' in a pipeline key"))
  }

  /** Decoding an encoded key gives back the project and the decimal id,
      provided the project id holds no separator. */
  lemma DecodeEncode(projectId: string, definitionId: nat)
    requires Separator !in projectId
    ensures DecodeKey(EncodeKey(projectId, definitionId)) == Ok((projectId, Decimal(definitionId)))
  {
    var digits := Decimal(definitionId);
    DecimalHasNo(definitionId, Separator);
    SplitJoin([projectId, digits], Separator);
    assert Join([projectId, digits], Separator) == projectId + [Separator] + Join([digits], Separator);
  }

  /** A project id that holds the separator makes its own keys undecodable. */
  lemma DecodeRejectsSeparatorInProject(projectId: string, definitionId: nat)
    requires Separator in projectId
    ensures DecodeKey(EncodeKey(projectId, definitionId)).Err?
  {
    OccurrencesZero(projectId, Separator);
    OccurrencesConcat(projectId, [Separator] + Decimal(definitionId), Separator);
    assert ([Separator] + Decimal(definitionId))[1..] == Decimal(definitionId);
  }

  /** The owning project as the classifier recovers it: `str(key).split('_')[0]`. */
  function OwnerProject(k: Key): (p: string)
    ensures Separator !in p
  {
    BeforeFirst(k, Separator)
  }

  lemma OwnerOfEncoded(projectId: string, definitionId: nat)
    requires Separator !in projectId
    ensures OwnerProject(EncodeKey(projectId, definitionId)) == projectId
  {
    BeforeFirstOf(projectId, Decimal(definitionId), Separator);
  }

  /** The `startswith(project)` test the permission resolver uses to pick a
      project's definitions is exact when project ids have one length (as the
      platform's GUIDs do) ... */
  lemma PrefixTestExactForEqualLengths(p: string, q: string, definitionId: nat)
    requires |p| == |q|
    requires StartsWith(EncodeKey(q, definitionId), p)
    ensures p == q
  {
    var k := EncodeKey(q, definitionId);
    assert k[..|q|] == q;
  }

  /** ... but not in general: a key of project "P10" passes the test for "P1". */
  lemma PrefixTestAdmitsLongerIds()
    ensures StartsWith(EncodeKey("P10", 7), "P1")
  {
    var k := EncodeKey("P10", 7);
    assert k[..2] == "P1";
  }

  // ---------------------------------------------------------------------------
  // reverse-index tags

  /** `f"{kind}_{id}"` */
  function EncodeTag(kind: string, id: string): string {
    kind + [Separator] + id
  }

  /** `kind, id = tag.rsplit("_", 1)` */
  function DecodeTag(tag: string): Option<(string, string)> {
    RSplitOnce(tag, Separator)
  }

  /** A tag decodes to its kind and id whenever the id holds no separator,
      whatever the kind holds ("pool_merged" included). */
  lemma DecodeEncodeTag(kind: string, id: string)
    requires Separator !in id
    ensures DecodeTag(EncodeTag(kind, id)) == Some((kind, id))
  {
    RSplitOnceOf(kind, id, Separator);
  }

  /** Splitting a tag on its first separator instead, as the classifier does
      with PipelineKeys, would take "pool_merged_<id>" for kind "pool". */
  lemma FirstSplitBreaksPoolMergedTag(id: string)
    ensures BeforeFirst(EncodeTag("pool_merged", id), Separator) == "pool"
  {
    assert EncodeTag("pool_merged", id) == "pool" + [Separator] + ("merged" + [Separator] + id);
    BeforeFirstOf("pool", "merged" + [Separator] + id, Separator);
  }
}
