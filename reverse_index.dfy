/** The pipeline reverse index: every permission a protected resource grants is
    recorded on the build definition it names, as a "<type>_<id>" tag that is
    taken apart again at its last separator. A pool records the permissions
    of its queues twice, under "pool_merged" and under "queue". */
module ReverseIndex {
  import opened Wrappers
  import opened Text
  import opened Seqs
  import opened PipelineKeys
  import opened Resources

  /** The messages of the errors the index raises. */
  const PermissionsKey: string := "pipelinepermissions"
  const NotEnoughToUnpack: string := "not enough values to unpack (expected 2, got 1)"

  /** A protected resource of the inventory, with the type it is listed under. */
  type Entry = (ResourceType, Resource)

  /** A PipelineKey and one tag recorded for it. */
  type Pair = (Key, string)

  const PoolTagKind := "pool_merged"
  const QueueTagKind := "queue"

  // ---------------------------------------------------------------------------
  // the tags each resource contributes

  predicate QueueListed(queues: seq<Resource>, id: string) {
    exists i :: 0 <= i < |queues| && queues[i].id == id
  }

  /** The queue a pool holds by id; the pool and the queue list share it. */
  function FindQueue(queues: seq<Resource>, id: string): (q: Resource)
    requires QueueListed(queues, id)
    ensures q in queues && q.id == id
    decreases |queues|
  {
    if queues[0].id == id then queues[0]
    else
      assert QueueListed(queues[1..], id) by {
        var i :| 0 <= i < |queues| && queues[i].id == id;
        assert queues[1..][i - 1] == queues[i];
      }
      FindQueue(queues[1..], id)
  }

  /** Every queue id a pool holds names a queue of the list: a pool's queues
      are the queue records themselves. */
  predicate PoolQueuesListed(entries: seq<Entry>, queues: seq<Resource>) {
    forall i, id :: 0 <= i < |entries| && entries[i].0 == Pools && entries[i].1.queues.Some? && id in entries[i].1.queues.value ==>
      QueueListed(queues, id)
  }

  /** Every permission with every one of `tags`, permission by permission. */
  function Tagged(perms: seq<Key>, tags: seq<string>): (ps: seq<Pair>)
    ensures forall p :: p in ps <==> p.0 in perms && p.1 in tags
    decreases |perms|
  {
    if perms == [] then []
    else
      var k := perms[|perms| - 1];
      var rest := Tagged(perms[..|perms| - 1], tags);
      var last := seq(|tags|, j requires 0 <= j < |tags| => (k, tags[j]));
      assert forall x :: x in perms <==> x in perms[..|perms| - 1] || x == k by {
        assert perms == perms[..|perms| - 1] + [k];
      }
      assert forall p :: p in last <==> p.0 == k && p.1 in tags by {
        forall p: Pair | p.0 == k && p.1 in tags ensures p in last {
          var j :| 0 <= j < |tags| && tags[j] == p.1;
          assert last[j] == p;
        }
      }
      rest + last
  }

  /** The pairs of a pool: for each of its queues in turn, each permission of
      the queue tagged with the pool and with the queue. A queue without
      permissions raises. */
  function QueueTags(poolId: string, qids: seq<string>, queues: seq<Resource>): Result<seq<Pair>>
    requires forall id :: id in qids ==> QueueListed(queues, id)
    decreases |qids|
  {
    if qids == [] then Ok([])
    else
      var rest :- QueueTags(poolId, qids[..|qids| - 1], queues);
      var q := FindQueue(queues, qids[|qids| - 1]);
      if q.pipelinePermissions.None? then Err(KeyError(PermissionsKey))
      else Ok(rest + Tagged(q.pipelinePermissions.value, [EncodeTag(PoolTagKind, poolId), EncodeTag(QueueTagKind, q.id)]))
  }

  /** The pairs one protected resource contributes; a resource without the
      list the code reads raises. */
  function ResourceTags(t: ResourceType, r: Resource, queues: seq<Resource>): Result<seq<Pair>>
    requires t == Pools && r.queues.Some? ==> forall id :: id in r.queues.value ==> QueueListed(queues, id)
  {
    if t == Pools then
      if r.queues.None? then Err(KeyError("queues")) else QueueTags(r.id, r.queues.value, queues)
    else if r.pipelinePermissions.None? then Err(KeyError(PermissionsKey))
    else Ok(Tagged(r.pipelinePermissions.value, [EncodeTag(TypeName(t), r.id)]))
  }

  /** The pairs of the whole inventory, in inventory order. */
  function Pairs(entries: seq<Entry>, queues: seq<Resource>): Result<seq<Pair>>
    requires PoolQueuesListed(entries, queues)
    decreases |entries|
  {
    if entries == [] then Ok([])
    else
      var p := entries[..|entries| - 1];
      assert PoolQueuesListed(p, queues) by {
        assert forall i :: 0 <= i < |p| ==> p[i] == entries[i];
      }
      var e := entries[|entries| - 1];
      var rest :- Pairs(p, queues);
      var tags :- ResourceTags(e.0, e.1, queues);
      Ok(rest + tags)
  }

  // ---------------------------------------------------------------------------
  // definitions_map: the tags grouped by key, keys in first-insertion order

  function PairKeys(ps: seq<Pair>): (ks: seq<Key>)
    ensures |ks| == |ps| && forall i :: 0 <= i < |ps| ==> ks[i] == ps[i].0
  {
    seq(|ps|, i requires 0 <= i < |ps| => ps[i].0)
  }

  /** The tags recorded for `k`, in the order they were appended. */
  function Group(ps: seq<Pair>, k: Key): (g: seq<string>)
    ensures forall tag :: tag in g <==> (k, tag) in ps
    decreases |ps|
  {
    if ps == [] then []
    else
      var p := ps[|ps| - 1];
      var rest := Group(ps[..|ps| - 1], k);
      assert forall x :: x in ps <==> x in ps[..|ps| - 1] || x == p by {
        assert ps == ps[..|ps| - 1] + [p];
      }
      if p.0 == k then rest + [p.1] else rest
  }

  /** The keys of the map, in the order they were first inserted. */
  function KeyOrder(ps: seq<Pair>): seq<Key> {
    Dedup(PairKeys(ps))
  }

  function GroupMap(ps: seq<Pair>): (m: map<Key, seq<string>>)
    ensures forall k :: k in m <==> k in KeyOrder(ps)
    ensures forall k :: k in m ==> m[k] == Group(ps, k)
  {
    map k | k in KeyOrder(ps) :: Group(ps, k)
  }

  lemma PairsSnoc(ps: seq<Pair>, p: Pair, k: Key)
    ensures PairKeys(ps + [p]) == PairKeys(ps) + [p.0]
    ensures Group(ps + [p], k) == if p.0 == k then Group(ps, k) + [p.1] else Group(ps, k)
  {
    assert (ps + [p])[..|ps|] == ps;
  }

  /** Map and key order describe the pairs `ps`. */
  ghost predicate Describes(m: map<Key, seq<string>>, order: seq<Key>, ps: seq<Pair>) {
    && order == KeyOrder(ps)
    && (forall k :: k in m <==> k in order)
    && (forall k :: k in m ==> m[k] == Group(ps, k))
  }

  lemma DescribesGroupMap(m: map<Key, seq<string>>, order: seq<Key>, ps: seq<Pair>)
    requires Describes(m, order, ps)
    ensures m == GroupMap(ps)
  {
    assert m.Keys == GroupMap(ps).Keys;
  }

  lemma {:induction false} GroupOfAbsentKey(ps: seq<Pair>, k: Key)
    requires k !in PairKeys(ps)
    ensures Group(ps, k) == []
    decreases |ps|
  {
    if ps != [] {
      var p := ps[..|ps| - 1];
      assert PairKeys(ps)[|ps| - 1] == ps[|ps| - 1].0;
      assert forall i :: 0 <= i < |p| ==> PairKeys(p)[i] == PairKeys(ps)[i];
      GroupOfAbsentKey(p, k);
    }
  }

  /** `definitions_map[k].append(tag)`, creating the list first. */
  function Insert(m: map<Key, seq<string>>, k: Key, tag: string): map<Key, seq<string>> {
    m[k := (if k in m then m[k] else []) + [tag]]
  }

  lemma InsertStep(m: map<Key, seq<string>>, order: seq<Key>, cur: seq<Pair>, k: Key, tag: string)
    requires Describes(m, order, cur)
    ensures Describes(Insert(m, k, tag), if k in m then order else order + [k], cur + [(k, tag)])
  {
    InsertOrder(m, order, cur, k, tag);
    InsertGroups(m, order, cur, k, tag);
  }

  lemma InsertOrder(m: map<Key, seq<string>>, order: seq<Key>, cur: seq<Pair>, k: Key, tag: string)
    requires order == KeyOrder(cur)
    requires forall k' :: k' in m <==> k' in order
    ensures (if k in m then order else order + [k]) == KeyOrder(cur + [(k, tag)])
  {
    PairsSnoc(cur, (k, tag), k);
    DedupSnoc(PairKeys(cur), k);
  }

  lemma InsertGroups(m: map<Key, seq<string>>, order: seq<Key>, cur: seq<Pair>, k: Key, tag: string)
    requires order == KeyOrder(cur)
    requires forall k' :: k' in m <==> k' in order
    requires forall k' :: k' in m ==> m[k'] == Group(cur, k')
    ensures forall k' :: k' in Insert(m, k, tag) ==> Insert(m, k, tag)[k'] == Group(cur + [(k, tag)], k')
  {
    var m2 := Insert(m, k, tag);
    PairsSnoc(cur, (k, tag), k);
    if k !in m {
      assert k !in PairKeys(cur);
      GroupOfAbsentKey(cur, k);
    }
    forall k' | k' in m2 ensures m2[k'] == Group(cur + [(k, tag)], k') {
      PairsSnoc(cur, (k, tag), k');
    }
  }

  /** One pair appended to the list of its key, a key seen for the first
      time getting an empty list first. */
  method InsertOne(m: map<Key, seq<string>>, order: seq<Key>, ghost cur: seq<Pair>, k: Key, tag: string)
    returns (m': map<Key, seq<string>>, order': seq<Key>)
    requires Describes(m, order, cur)
    ensures Describes(m', order', cur + [(k, tag)])
  {
    InsertStep(m, order, cur, k, tag);
    order' := if k in m then order else order + [k];
    m' := Insert(m, k, tag);
  }

  /** The innermost loop: each pair of `ts` inserted in turn. */
  method InsertPairs(m: map<Key, seq<string>>, order: seq<Key>, ghost ps: seq<Pair>, ts: seq<Pair>)
    returns (m': map<Key, seq<string>>, order': seq<Key>)
    requires Describes(m, order, ps)
    ensures Describes(m', order', ps + ts)
  {
    m', order' := m, order;
    ghost var cur := ps;
    assert ps + ts[..0] == ps;
    for j := 0 to |ts|
      invariant cur == ps + ts[..j]
      invariant Describes(m', order', cur)
    {
      m', order' := InsertOne(m', order', cur, ts[j].0, ts[j].1);
      assert ps + ts[..j + 1] == cur + [(ts[j].0, ts[j].1)];
      cur := cur + [(ts[j].0, ts[j].1)];
    }
    assert ts[..|ts|] == ts;
  }

  /** The first loop of `get_enriched_build_definitions`: the map from
      PipelineKey to the tags recorded for it, and the order of its keys. */
  method BuildDefinitionsMap(entries: seq<Entry>, queues: seq<Resource>) returns (out: Result<(map<Key, seq<string>>, seq<Key>)>)
    requires PoolQueuesListed(entries, queues)
    ensures out.Ok? <==> Pairs(entries, queues).Ok?
    ensures out.Err? ==> Pairs(entries, queues) == Err(out.error)
    ensures out.Ok? ==> out.value == (GroupMap(Pairs(entries, queues).value), KeyOrder(Pairs(entries, queues).value))
  {
    var m: map<Key, seq<string>> := map[];
    var order: seq<Key> := [];
    ghost var ps: seq<Pair> := [];
    var i := 0;
    while i < |entries|
      invariant 0 <= i <= |entries|
      invariant PoolQueuesListed(entries[..i], queues)
      invariant Pairs(entries[..i], queues) == Ok(ps)
      invariant Describes(m, order, ps)
    {
      assert entries[..i + 1][..i] == entries[..i];
      assert PoolQueuesListed(entries[..i + 1], queues) by {
        assert forall n :: 0 <= n <= i ==> entries[..i + 1][n] == entries[n];
      }
      var (t, r) := entries[i];
      assert entries[..i + 1][i] == (t, r);
      var tags := ResourceTags(t, r, queues);
      if tags.Err? {
        assert Pairs(entries[..i + 1], queues).Err?;
        PairsErrPersists(entries, queues, i + 1);
        assert entries[..|entries|] == entries;
        return Err(tags.error);
      }
      m, order := InsertPairs(m, order, ps, tags.value);
      ps := ps + tags.value;
      i := i + 1;
    }
    assert entries[..i] == entries;
    DescribesGroupMap(m, order, ps);
    out := Ok((m, order));
  }

  /** Once the pairs of a prefix fail, the pairs of the whole inventory do. */
  lemma {:induction false} PairsErrPersists(entries: seq<Entry>, queues: seq<Resource>, n: nat)
    requires n <= |entries| && PoolQueuesListed(entries, queues)
    requires PoolQueuesListed(entries[..n], queues) && Pairs(entries[..n], queues).Err?
    ensures Pairs(entries, queues) == Pairs(entries[..n], queues)
    decreases |entries| - n
  {
    if n < |entries| {
      var p := entries[..n + 1];
      assert p[..n] == entries[..n];
      assert PoolQueuesListed(p, queues) by {
        assert forall i :: 0 <= i < |p| ==> p[i] == entries[i];
      }
      assert p[..|p| - 1] == entries[..n];
      PairsErrPersists(entries, queues, n + 1);
    } else {
      assert entries[..n] == entries;
    }
  }

  // ---------------------------------------------------------------------------
  // recording the tags on the definitions

  /** The first definition whose key is `k`, as `next(...)` finds it. */
  function FirstWithKey(defs: seq<Definition>, k: Key): (t: Option<nat>)
    ensures t.Some? ==> t.value < |defs| && defs[t.value].key == k && forall i :: 0 <= i < t.value ==> defs[i].key != k
    ensures t.None? ==> forall i :: 0 <= i < |defs| ==> defs[i].key != k
    decreases |defs|
  {
    if defs == [] then None
    else if defs[0].key == k then Some(0)
    else
      assert forall i :: 1 <= i < |defs| ==> defs[1..][i - 1] == defs[i];
      match FirstWithKey(defs[1..], k)
      case None => None
      case Some(j) => Some(j + 1)
  }

  /** Definition `j` is the one the lookup of its own key finds. */
  predicate IsTarget(defs: seq<Definition>, j: nat) {
    j < |defs| && FirstWithKey(defs, defs[j].key) == Some(j)
  }

  predicate SameKeys(a: seq<Definition>, b: seq<Definition>) {
    |a| == |b| && forall i :: 0 <= i < |a| ==> a[i].key == b[i].key
  }

  /** The lookup reads keys only. */
  lemma FirstWithKeyReadsKeys(a: seq<Definition>, b: seq<Definition>, k: Key)
    requires SameKeys(a, b)
    ensures FirstWithKey(a, k) == FirstWithKey(b, k)
  {
  }

  /** `kind` holds `id` in a resourcepermissions dict. */
  predicate Holds(rp: map<string, seq<string>>, kind: string, id: string) {
    kind in rp && id in rp[kind]
  }

  /** Every per-type id list is free of duplicates. */
  predicate ListsNoDup(rp: map<string, seq<string>>) {
    forall kind :: kind in rp ==> NoDup(rp[kind])
  }

  /** One id recorded under its type, once. */
  function AddTag(rp: map<string, seq<string>>, kind: string, id: string): (q: map<string, seq<string>>)
    ensures kind in q && q.Keys == rp.Keys + {kind}
    ensures forall x, y :: Holds(q, x, y) <==> Holds(rp, x, y) || (x == kind && y == id)
    ensures ListsNoDup(rp) ==> ListsNoDup(q)
  {
    var l := if kind in rp then rp[kind] else [];
    rp[kind := if id in l then l else l + [id]]
  }

  /** The tags of one key, each taken apart at its last separator and
      recorded; a tag without a separator makes the unpacking raise. */
  function AddTags(rp: map<string, seq<string>>, tags: seq<string>): Result<map<string, seq<string>>>
    decreases |tags|
  {
    if tags == [] then Ok(rp)
    else
      match DecodeTag(tags[0])
      case None => Err(ValueError(NotEnoughToUnpack))
      case Some((kind, id)) => AddTags(AddTag(rp, kind, id), tags[1..])
  }

  predicate TagsDecode(tags: seq<string>) {
    forall i :: 0 <= i < |tags| ==> DecodeTag(tags[i]).Some?
  }

  /** Recording fails exactly on an undecodable tag. */
  lemma {:induction false} AddTagsOk(rp: map<string, seq<string>>, tags: seq<string>)
    ensures AddTags(rp, tags).Ok? <==> TagsDecode(tags)
    decreases |tags|
  {
    if tags != [] {
      var rest := tags[1..];
      assert forall i :: 1 <= i < |tags| ==> rest[i - 1] == tags[i];
      match DecodeTag(tags[0])
      case None =>
      case Some((x, y)) =>
        AddTagsOk(AddTag(rp, x, y), rest);
        assert TagsDecode(tags) <==> TagsDecode(rest);
    }
  }

  /** Each tag taken apart, in order. */
  function Decodings(tags: seq<string>): (ds: seq<Option<(string, string)>>)
    ensures |ds| == |tags| && forall i :: 0 <= i < |tags| ==> ds[i] == DecodeTag(tags[i])
    decreases |tags|
  {
    if tags == [] then [] else [DecodeTag(tags[0])] + Decodings(tags[1..])
  }

  /** Some tag of `tags` decodes to (`kind`, `id`). */
  predicate HasTag(tags: seq<string>, kind: string, id: string) {
    Some((kind, id)) in Decodings(tags)
  }

  /** Recording records the decoded (type, id) of every tag and nothing else. */
  lemma {:induction false} AddTagsHolds(rp: map<string, seq<string>>, tags: seq<string>, kind: string, id: string)
    requires AddTags(rp, tags).Ok?
    ensures Holds(AddTags(rp, tags).value, kind, id) <==> Holds(rp, kind, id) || HasTag(tags, kind, id)
    decreases |tags|
  {
    if tags != [] {
      var (x, y) := DecodeTag(tags[0]).value;
      assert AddTags(rp, tags) == AddTags(AddTag(rp, x, y), tags[1..]);
      AddTagsHolds(AddTag(rp, x, y), tags[1..], kind, id);
      assert Decodings(tags) == [DecodeTag(tags[0])] + Decodings(tags[1..]);
    }
  }

  /** Recording keeps every per-type list free of duplicates. */
  lemma {:induction false} AddTagsNoDup(rp: map<string, seq<string>>, tags: seq<string>)
    requires AddTags(rp, tags).Ok? && ListsNoDup(rp)
    ensures ListsNoDup(AddTags(rp, tags).value)
    decreases |tags|
  {
    if tags != [] {
      var (x, y) := DecodeTag(tags[0]).value;
      AddTagsNoDup(AddTag(rp, x, y), tags[1..]);
    }
  }

  /** The second loop over the keys of the map: the tags of each key are
      recorded on the first definition with that key; a key without a
      definition is skipped. */
  function ApplyKeys(defs: seq<Definition>, keys: seq<Key>, groups: map<Key, seq<string>>): Result<seq<Definition>>
    requires forall k :: k in keys ==> k in groups
    decreases |keys|
  {
    if keys == [] then Ok(defs)
    else
      var k := keys[0];
      match FirstWithKey(defs, k)
      case None => ApplyKeys(defs, keys[1..], groups)
      case Some(j) =>
        var rp :- AddTags(defs[j].resourcePermissions.GetOr(map[]), groups[k]);
        ApplyKeys(defs[j := defs[j].(resourcePermissions := Some(rp))], keys[1..], groups)
  }

  /** Definition `j` after the second loop: the target of a key of the map
      gets that key's tags recorded; every other definition is untouched. */
  function Recorded(defs: seq<Definition>, j: nat, keys: seq<Key>, groups: map<Key, seq<string>>): Result<Definition>
    requires j < |defs| && forall k :: k in keys ==> k in groups
  {
    if defs[j].key in keys && IsTarget(defs, j) then
      var rp :- AddTags(defs[j].resourcePermissions.GetOr(map[]), groups[defs[j].key]);
      Ok(defs[j].(resourcePermissions := Some(rp)))
    else Ok(defs[j])
  }

  predicate GroupsDecode(groups: map<Key, seq<string>>) {
    forall k :: k in groups ==> TagsDecode(groups[k])
  }

  /** With distinct keys and decodable tags the second loop succeeds and
      treats every definition independently: definition `j` ends up as
      `Recorded` says, whatever order the keys come in. */
  lemma {:induction false} ApplyKeysSpec(defs: seq<Definition>, keys: seq<Key>, groups: map<Key, seq<string>>)
    requires forall k :: k in keys ==> k in groups
    requires NoDup(keys) && GroupsDecode(groups)
    ensures ApplyKeys(defs, keys, groups).Ok?
    ensures |ApplyKeys(defs, keys, groups).value| == |defs|
    ensures forall j :: 0 <= j < |defs| ==> Recorded(defs, j, keys, groups) == Ok(ApplyKeys(defs, keys, groups).value[j])
    decreases |keys|
  {
    if keys != [] {
      var k := keys[0];
      var rest := keys[1..];
      assert forall i :: 1 <= i < |keys| ==> rest[i - 1] == keys[i];
      assert NoDup(rest);
      assert k !in rest;
      assert forall x :: x in keys <==> x == k || x in rest;
      match FirstWithKey(defs, k)
      case None =>
        ApplyKeysSpec(defs, rest, groups);
      case Some(j0) =>
        AddTagsOk(defs[j0].resourcePermissions.GetOr(map[]), groups[k]);
        var rp := AddTags(defs[j0].resourcePermissions.GetOr(map[]), groups[k]).value;
        var defs' := defs[j0 := defs[j0].(resourcePermissions := Some(rp))];
        ApplyKeysSpec(defs', rest, groups);
        var res := ApplyKeys(defs', rest, groups).value;
        assert ApplyKeys(defs, keys, groups) == ApplyKeys(defs', rest, groups);
        assert SameKeys(defs, defs');
        forall j | 0 <= j < |defs| ensures Recorded(defs, j, keys, groups) == Ok(res[j]) {
          FirstWithKeyReadsKeys(defs, defs', defs[j].key);
          assert IsTarget(defs, j) <==> IsTarget(defs', j);
          if j == j0 {
            assert defs[j].key !in rest;
          } else {
            assert defs'[j] == defs[j];
          }
        }
    }
  }

  // ---------------------------------------------------------------------------
  // what the pairs of the inventory are

  /** Queue `id` of pool `poolId` records `tag` for `k`. */
  predicate QueueContributes(poolId: string, queues: seq<Resource>, id: string, k: Key, tag: string) {
    && QueueListed(queues, id)
    && FindQueue(queues, id).pipelinePermissions.Some?
    && k in FindQueue(queues, id).pipelinePermissions.value
    && (tag == EncodeTag(PoolTagKind, poolId) || tag == EncodeTag(QueueTagKind, id))
  }

  /** Entry `e` records `tag` for PipelineKey `k`: a pool for each permission
      of each of its queues, under its own id and the queue's; any other
      resource for each of its permissions, under its type and id. */
  predicate Contributes(e: Entry, queues: seq<Resource>, k: Key, tag: string) {
    if e.0 == Pools then
      e.1.queues.Some? && exists id :: id in e.1.queues.value && QueueContributes(e.1.id, queues, id, k, tag)
    else
      e.1.pipelinePermissions.Some? && k in e.1.pipelinePermissions.value && tag == EncodeTag(TypeName(e.0), e.1.id)
  }

  /** The entry carries every list the index reads. */
  predicate Complete(e: Entry, queues: seq<Resource>) {
    if e.0 == Pools then
      e.1.queues.Some? &&
      forall id :: id in e.1.queues.value ==> QueueListed(queues, id) && FindQueue(queues, id).pipelinePermissions.Some?
    else e.1.pipelinePermissions.Some?
  }

  lemma {:induction false} QueueTagsSpec(poolId: string, qids: seq<string>, queues: seq<Resource>, k: Key, tag: string)
    requires forall id :: id in qids ==> QueueListed(queues, id)
    ensures QueueTags(poolId, qids, queues).Ok? <==> forall id :: id in qids ==> FindQueue(queues, id).pipelinePermissions.Some?
    ensures QueueTags(poolId, qids, queues).Ok? ==>
      ((k, tag) in QueueTags(poolId, qids, queues).value <==> exists id :: id in qids && QueueContributes(poolId, queues, id, k, tag))
    decreases |qids|
  {
    if qids != [] {
      var p := qids[..|qids| - 1];
      var last := qids[|qids| - 1];
      assert qids == p + [last];
      assert forall id :: id in qids <==> id in p || id == last;
      QueueTagsSpec(poolId, p, queues, k, tag);
      var q := FindQueue(queues, last);
      if QueueTags(poolId, p, queues).Err? {
        var id :| id in p && FindQueue(queues, id).pipelinePermissions.None?;
        assert id in qids;
      } else if q.pipelinePermissions.None? {
        assert last in qids;
      }
      if QueueTags(poolId, qids, queues).Ok? {
        var tags := [EncodeTag(PoolTagKind, poolId), EncodeTag(QueueTagKind, q.id)];
        assert QueueTags(poolId, qids, queues).value == QueueTags(poolId, p, queues).value + Tagged(q.pipelinePermissions.value, tags);
        assert (k, tag) in Tagged(q.pipelinePermissions.value, tags) <==> QueueContributes(poolId, queues, last, k, tag);
        if exists id :: id in qids && QueueContributes(poolId, queues, id, k, tag) {
          var id :| id in qids && QueueContributes(poolId, queues, id, k, tag);
          assert id in p || id == last;
        }
        if exists id :: id in p && QueueContributes(poolId, queues, id, k, tag) {
          var id :| id in p && QueueContributes(poolId, queues, id, k, tag);
          assert id in qids;
        }
      }
    }
  }

  lemma {:induction false} PairsOk(entries: seq<Entry>, queues: seq<Resource>)
    requires PoolQueuesListed(entries, queues)
    ensures Pairs(entries, queues).Ok? <==> forall i :: 0 <= i < |entries| ==> Complete(entries[i], queues)
    decreases |entries|
  {
    if entries != [] {
      var p := entries[..|entries| - 1];
      var e := entries[|entries| - 1];
      assert forall i :: 0 <= i < |p| ==> p[i] == entries[i];
      assert PoolQueuesListed(p, queues);
      PairsOk(p, queues);
      if e.0 == Pools && e.1.queues.Some? {
        QueueTagsSpec(e.1.id, e.1.queues.value, queues, "", "");
      }
      assert ResourceTags(e.0, e.1, queues).Ok? <==> Complete(e, queues);
    }
  }

  lemma {:induction false} PairsMember(entries: seq<Entry>, queues: seq<Resource>, k: Key, tag: string)
    requires PoolQueuesListed(entries, queues) && Pairs(entries, queues).Ok?
    ensures (k, tag) in Pairs(entries, queues).value <==> exists i :: 0 <= i < |entries| && Contributes(entries[i], queues, k, tag)
    decreases |entries|
  {
    if entries != [] {
      var p := entries[..|entries| - 1];
      var e := entries[|entries| - 1];
      PairsSplit(entries, queues);
      PairsMember(p, queues, k, tag);
      TagsMember(e, queues, k, tag);
      ContributesSnoc(entries, queues, k, tag);
    }
  }

  /** The pairs of a non-empty inventory are those of all but its last
      entry followed by the tags of the last. */
  lemma PairsSplit(entries: seq<Entry>, queues: seq<Resource>)
    requires entries != [] && PoolQueuesListed(entries, queues) && Pairs(entries, queues).Ok?
    ensures PoolQueuesListed(entries[..|entries| - 1], queues)
    ensures entries[|entries| - 1].0 == Pools && entries[|entries| - 1].1.queues.Some? ==>
      forall id :: id in entries[|entries| - 1].1.queues.value ==> QueueListed(queues, id)
    ensures Pairs(entries[..|entries| - 1], queues).Ok?
    ensures ResourceTags(entries[|entries| - 1].0, entries[|entries| - 1].1, queues).Ok?
    ensures Pairs(entries, queues).value ==
      Pairs(entries[..|entries| - 1], queues).value + ResourceTags(entries[|entries| - 1].0, entries[|entries| - 1].1, queues).value
  {
    var p := entries[..|entries| - 1];
    assert forall i :: 0 <= i < |p| ==> p[i] == entries[i];
  }

  lemma TagsMember(e: Entry, queues: seq<Resource>, k: Key, tag: string)
    requires e.0 == Pools && e.1.queues.Some? ==> forall id :: id in e.1.queues.value ==> QueueListed(queues, id)
    requires ResourceTags(e.0, e.1, queues).Ok?
    ensures (k, tag) in ResourceTags(e.0, e.1, queues).value <==> Contributes(e, queues, k, tag)
  {
    if e.0 == Pools {
      QueueTagsSpec(e.1.id, e.1.queues.value, queues, k, tag);
    }
  }

  /** Some entry of `es` contributes the pair. */
  predicate SomeContributes(es: seq<Entry>, queues: seq<Resource>, k: Key, tag: string) {
    exists i :: 0 <= i < |es| && Contributes(es[i], queues, k, tag)
  }

  lemma ContributesSnoc(entries: seq<Entry>, queues: seq<Resource>, k: Key, tag: string)
    requires entries != []
    ensures SomeContributes(entries, queues, k, tag) <==>
      SomeContributes(entries[..|entries| - 1], queues, k, tag) || Contributes(entries[|entries| - 1], queues, k, tag)
  {
    var p := entries[..|entries| - 1];
    if exists i :: 0 <= i < |entries| && Contributes(entries[i], queues, k, tag) {
      var i :| 0 <= i < |entries| && Contributes(entries[i], queues, k, tag);
      if i < |p| {
        assert Contributes(p[i], queues, k, tag);
      }
    }
    if exists i :: 0 <= i < |p| && Contributes(p[i], queues, k, tag) {
      var i :| 0 <= i < |p| && Contributes(p[i], queues, k, tag);
      assert entries[i] == p[i];
    }
  }

  lemma EncodedTagDecodes(kind: string, id: string)
    ensures DecodeTag(EncodeTag(kind, id)).Some?
  {
    assert EncodeTag(kind, id)[|kind|] == Separator;
  }

  /** Every tag the inventory records is of the form "<kind>_<id>", so the
      unpacking of the second loop never raises. */
  lemma PairsDecode(entries: seq<Entry>, queues: seq<Resource>)
    requires PoolQueuesListed(entries, queues) && Pairs(entries, queues).Ok?
    ensures GroupsDecode(GroupMap(Pairs(entries, queues).value))
  {
    var ps := Pairs(entries, queues).value;
    forall k, x | k in GroupMap(ps) && 0 <= x < |GroupMap(ps)[k]| ensures DecodeTag(GroupMap(ps)[k][x]).Some? {
      var tag := GroupMap(ps)[k][x];
      assert tag in Group(ps, k);
      PairsMember(entries, queues, k, tag);
      var i :| 0 <= i < |entries| && Contributes(entries[i], queues, k, tag);
      var (t, r) := entries[i];
      if t == Pools {
        var id :| id in r.queues.value && QueueContributes(r.id, queues, id, k, tag);
        EncodedTagDecodes(PoolTagKind, r.id);
        EncodedTagDecodes(QueueTagKind, id);
      } else {
        EncodedTagDecodes(TypeName(t), r.id);
      }
    }
  }

  // ---------------------------------------------------------------------------
  // the whole index

  /** `get_enriched_build_definitions`: the definitions with the tags of every
      protected resource recorded. A resource without the list the code reads
      raises. */
  function ReverseIndex(defs: seq<Definition>, entries: seq<Entry>, queues: seq<Resource>): Result<seq<Definition>>
    requires PoolQueuesListed(entries, queues)
  {
    var ps :- Pairs(entries, queues);
    ApplyKeys(defs, KeyOrder(ps), GroupMap(ps))
  }

  /** Some entry records a tag for `k`. */
  ghost predicate KeyHasTags(entries: seq<Entry>, queues: seq<Resource>, k: Key) {
    exists i, tag :: 0 <= i < |entries| && Contributes(entries[i], queues, k, tag)
  }

  lemma KeyOrderMember(entries: seq<Entry>, queues: seq<Resource>, k: Key)
    requires PoolQueuesListed(entries, queues) && Pairs(entries, queues).Ok?
    ensures k in KeyOrder(Pairs(entries, queues).value) <==> KeyHasTags(entries, queues, k)
  {
    var ps := Pairs(entries, queues).value;
    if k in PairKeys(ps) {
      var x :| 0 <= x < |ps| && PairKeys(ps)[x] == k;
      PairsMember(entries, queues, k, ps[x].1);
      assert (k, ps[x].1) == ps[x];
    }
    if KeyHasTags(entries, queues, k) {
      var i, tag :| 0 <= i < |entries| && Contributes(entries[i], queues, k, tag);
      PairsMember(entries, queues, k, tag);
      var x :| 0 <= x < |ps| && ps[x] == (k, tag);
      assert PairKeys(ps)[x] == k;
    }
  }

  /** The preconditions under which the second loop behaves as `Recorded` says. */
  lemma ApplyPrerequisites(entries: seq<Entry>, queues: seq<Resource>)
    requires PoolQueuesListed(entries, queues) && Pairs(entries, queues).Ok?
    ensures forall k :: k in KeyOrder(Pairs(entries, queues).value) ==> k in GroupMap(Pairs(entries, queues).value)
    ensures NoDup(KeyOrder(Pairs(entries, queues).value))
    ensures GroupsDecode(GroupMap(Pairs(entries, queues).value))
  {
    PairsDecode(entries, queues);
  }

  /** The index fails exactly when some resource lacks a list it reads, and
      keeps the definition list's length. */
  lemma ReverseIndexOk(defs: seq<Definition>, entries: seq<Entry>, queues: seq<Resource>)
    requires PoolQueuesListed(entries, queues)
    ensures ReverseIndex(defs, entries, queues).Ok? <==> forall i :: 0 <= i < |entries| ==> Complete(entries[i], queues)
    ensures ReverseIndex(defs, entries, queues).Ok? ==> |ReverseIndex(defs, entries, queues).value| == |defs|
  {
    PairsOk(entries, queues);
    if Pairs(entries, queues).Ok? {
      var ps := Pairs(entries, queues).value;
      ApplyPrerequisites(entries, queues);
      ApplyKeysSpec(defs, KeyOrder(ps), GroupMap(ps));
    }
  }

  /** Definition `j` of the index, as `Recorded` describes it. */
  lemma ReverseIndexAt(defs: seq<Definition>, entries: seq<Entry>, queues: seq<Resource>, j: nat)
    requires PoolQueuesListed(entries, queues) && ReverseIndex(defs, entries, queues).Ok? && j < |defs|
    ensures Pairs(entries, queues).Ok?
    ensures forall k :: k in KeyOrder(Pairs(entries, queues).value) ==> k in GroupMap(Pairs(entries, queues).value)
    ensures |ReverseIndex(defs, entries, queues).value| == |defs|
    ensures Recorded(defs, j, KeyOrder(Pairs(entries, queues).value), GroupMap(Pairs(entries, queues).value))
         == Ok(ReverseIndex(defs, entries, queues).value[j])
    ensures defs[j].key in KeyOrder(Pairs(entries, queues).value) <==> KeyHasTags(entries, queues, defs[j].key)
  {
    var ps := Pairs(entries, queues).value;
    ApplyPrerequisites(entries, queues);
    ApplyKeysSpec(defs, KeyOrder(ps), GroupMap(ps));
    KeyOrderMember(entries, queues, defs[j].key);
  }

  /** Only 'resourcepermissions' changes, and only on the first definition
      with a key some resource grants; keys no definition has are dropped;
      per-type lists stay free of duplicates. */
  lemma ReverseIndexFrame(defs: seq<Definition>, entries: seq<Entry>, queues: seq<Resource>, j: nat)
    requires PoolQueuesListed(entries, queues) && ReverseIndex(defs, entries, queues).Ok? && j < |defs|
    ensures |ReverseIndex(defs, entries, queues).value| == |defs|
    ensures var d := ReverseIndex(defs, entries, queues).value[j];
      && d == defs[j].(resourcePermissions := d.resourcePermissions)
      && (!(IsTarget(defs, j) && KeyHasTags(entries, queues, defs[j].key)) ==> d == defs[j])
      && (ListsNoDup(defs[j].resourcePermissions.GetOr(map[])) ==> ListsNoDup(d.resourcePermissions.GetOr(map[])))
  {
    ReverseIndexAt(defs, entries, queues, j);
    var ps := Pairs(entries, queues).value;
    var keys, groups := KeyOrder(ps), GroupMap(ps);
    if defs[j].key in keys && IsTarget(defs, j) && ListsNoDup(defs[j].resourcePermissions.GetOr(map[])) {
      AddTagsNoDup(defs[j].resourcePermissions.GetOr(map[]), groups[defs[j].key]);
    }
  }

  /** On the first definition with its key, the index records exactly the
      (type, id) decoded from every tag some resource grants that key. */
  lemma ReverseIndexRecords(defs: seq<Definition>, entries: seq<Entry>, queues: seq<Resource>, j: nat, kind: string, id: string)
    requires PoolQueuesListed(entries, queues) && ReverseIndex(defs, entries, queues).Ok? && IsTarget(defs, j)
    ensures |ReverseIndex(defs, entries, queues).value| == |defs|
    ensures Holds(ReverseIndex(defs, entries, queues).value[j].resourcePermissions.GetOr(map[]), kind, id) <==>
      Holds(defs[j].resourcePermissions.GetOr(map[]), kind, id) || Granting(entries, queues, defs[j].key, kind, id)
  {
    ReverseIndexAt(defs, entries, queues, j);
    var ps := Pairs(entries, queues).value;
    var k := defs[j].key;
    if k in KeyOrder(ps) {
      AddTagsHolds(defs[j].resourcePermissions.GetOr(map[]), GroupMap(ps)[k], kind, id);
      GroupTags(entries, queues, k, kind, id);
    }
  }

  /** Some resource contributes for key `k` a tag that decodes to
      (`kind`, `id`). */
  ghost predicate Granting(entries: seq<Entry>, queues: seq<Resource>, k: Key, kind: string, id: string) {
    exists i, tag :: 0 <= i < |entries| && Contributes(entries[i], queues, k, tag) && DecodeTag(tag) == Some((kind, id))
  }

  /** The tags grouped under a key decode to exactly what the resources
      contribute for it. */
  lemma GroupTags(entries: seq<Entry>, queues: seq<Resource>, k: Key, kind: string, id: string)
    requires PoolQueuesListed(entries, queues) && Pairs(entries, queues).Ok?
    requires k in KeyOrder(Pairs(entries, queues).value) && k in GroupMap(Pairs(entries, queues).value)
    ensures HasTag(GroupMap(Pairs(entries, queues).value)[k], kind, id) <==> Granting(entries, queues, k, kind, id)
  {
    var ps := Pairs(entries, queues).value;
    var g := GroupMap(ps)[k];
    if HasTag(g, kind, id) {
      var x :| 0 <= x < |g| && Decodings(g)[x] == Some((kind, id));
      assert g[x] in Group(ps, k);
      PairsMember(entries, queues, k, g[x]);
    }
    if Granting(entries, queues, k, kind, id) {
      var i, tag :| 0 <= i < |entries| && Contributes(entries[i], queues, k, tag) && DecodeTag(tag) == Some((kind, id));
      PairsMember(entries, queues, k, tag);
      assert tag in g;
      var x :| 0 <= x < |g| && g[x] == tag;
      assert Decodings(g)[x] == Some((kind, id));
    }
  }

  /** A non-pool resource granting PipelineKey `k` has its id recorded under
      its type on the first definition with key `k`. */
  lemma ResourceRecordedOnDefinition(defs: seq<Definition>, entries: seq<Entry>, queues: seq<Resource>, i: nat, j: nat)
    requires PoolQueuesListed(entries, queues) && ReverseIndex(defs, entries, queues).Ok?
    requires i < |entries| && entries[i].0 != Pools && Separator !in entries[i].1.id
    requires IsTarget(defs, j) && entries[i].1.pipelinePermissions.Some? && defs[j].key in entries[i].1.pipelinePermissions.value
    ensures |ReverseIndex(defs, entries, queues).value| == |defs|
    ensures Holds(ReverseIndex(defs, entries, queues).value[j].resourcePermissions.GetOr(map[]), TypeName(entries[i].0), entries[i].1.id)
  {
    var (t, r) := entries[i];
    var tag := EncodeTag(TypeName(t), r.id);
    assert Contributes(entries[i], queues, defs[j].key, tag);
    DecodeEncodeTag(TypeName(t), r.id);
    ReverseIndexRecords(defs, entries, queues, j, TypeName(t), r.id);
  }

  /** A pool records every permission of each of its queues twice: under
      "pool_merged" with the pool's id and under "queue" with the queue's. */
  lemma PoolRecordedOnDefinition(defs: seq<Definition>, entries: seq<Entry>, queues: seq<Resource>, i: nat, qid: string, j: nat)
    requires PoolQueuesListed(entries, queues) && ReverseIndex(defs, entries, queues).Ok?
    requires i < |entries| && entries[i].0 == Pools && entries[i].1.queues.Some? && qid in entries[i].1.queues.value
    requires Separator !in entries[i].1.id && Separator !in qid
    requires QueueListed(queues, qid) && FindQueue(queues, qid).pipelinePermissions.Some?
    requires IsTarget(defs, j) && defs[j].key in FindQueue(queues, qid).pipelinePermissions.value
    ensures |ReverseIndex(defs, entries, queues).value| == |defs|
    ensures Holds(ReverseIndex(defs, entries, queues).value[j].resourcePermissions.GetOr(map[]), PoolTagKind, entries[i].1.id)
    ensures Holds(ReverseIndex(defs, entries, queues).value[j].resourcePermissions.GetOr(map[]), QueueTagKind, qid)
  {
    var r := entries[i].1;
    var k := defs[j].key;
    assert QueueContributes(r.id, queues, qid, k, EncodeTag(PoolTagKind, r.id));
    assert QueueContributes(r.id, queues, qid, k, EncodeTag(QueueTagKind, qid));
    assert Contributes(entries[i], queues, k, EncodeTag(PoolTagKind, r.id));
    assert Contributes(entries[i], queues, k, EncodeTag(QueueTagKind, qid));
    DecodeEncodeTag(PoolTagKind, r.id);
    DecodeEncodeTag(QueueTagKind, qid);
    ReverseIndexRecords(defs, entries, queues, j, PoolTagKind, r.id);
    ReverseIndexRecords(defs, entries, queues, j, QueueTagKind, qid);
  }

  lemma FirstWithKeyAt(defs: seq<Definition>, k: Key, n: nat)
    requires n < |defs| && defs[n].key == k && forall x :: 0 <= x < n ==> defs[x].key != k
    ensures FirstWithKey(defs, k) == Some(n)
  {
  }

  /** `next(d for d in definitions if d.get('k_key') == key)` */
  method FindDefinition(ds: seq<Definition>, key: Key) returns (target: Option<nat>)
    ensures target == FirstWithKey(ds, key)
  {
    var n := 0;
    while n < |ds| && ds[n].key != key
      invariant 0 <= n <= |ds|
      invariant forall x :: 0 <= x < n ==> ds[x].key != key
    {
      n := n + 1;
    }
    if n < |ds| {
      FirstWithKeyAt(ds, key, n);
      target := Some(n);
    } else {
      target := None;
    }
  }

  /** The two statements of the loop body make one `AddTag`. */
  lemma AddTagSteps(rp: map<string, seq<string>>, kind: string, id: string)
    ensures var r1 := if kind in rp then rp else rp[kind := []];
      (if id in r1[kind] then r1 else r1[kind := r1[kind] + [id]]) == AddTag(rp, kind, id)
  {
    var r1 := if kind in rp then rp else rp[kind := []];
    if kind in rp && id in rp[kind] {
      assert rp[kind := rp[kind]] == rp;
    }
  }

  lemma AddTagsUnfold(rp: map<string, seq<string>>, tags: seq<string>)
    requires tags != []
    ensures AddTags(rp, tags) ==
      match DecodeTag(tags[0])
      case None => Err(ValueError(NotEnoughToUnpack))
      case Some((kind, id)) => AddTags(AddTag(rp, kind, id), tags[1..])
  {
  }

  /** The loop over the tags of one key, updating one resourcepermissions dict. */
  method RecordOn(rp: map<string, seq<string>>, tags: seq<string>) returns (out: Result<map<string, seq<string>>>)
    ensures out == AddTags(rp, tags)
  {
    var cur := rp;
    var t := 0;
    while t < |tags|
      invariant 0 <= t <= |tags|
      invariant AddTags(cur, tags[t..]) == AddTags(rp, tags)
    {
      assert tags[t..][0] == tags[t] && tags[t..][1..] == tags[t + 1..];
      AddTagsUnfold(cur, tags[t..]);
      var parts := DecodeTag(tags[t]);
      if parts.None? {
        return Err(ValueError(NotEnoughToUnpack));
      }
      var (kind, id) := parts.value;
      AddTagSteps(cur, kind, id);
      if kind !in cur {
        cur := cur[kind := []];
      }
      if id !in cur[kind] {
        cur := cur[kind := cur[kind] + [id]];
      }
      t := t + 1;
    }
    out := Ok(cur);
  }

  lemma ApplyKeysUnfold(defs: seq<Definition>, keys: seq<Key>, groups: map<Key, seq<string>>)
    requires keys != [] && forall k :: k in keys ==> k in groups
    ensures ApplyKeys(defs, keys, groups) ==
      match FirstWithKey(defs, keys[0])
      case None => ApplyKeys(defs, keys[1..], groups)
      case Some(j) =>
        match AddTags(defs[j].resourcePermissions.GetOr(map[]), groups[keys[0]])
        case Err(e) => Err(e)
        case Ok(rp) => ApplyKeys(defs[j := defs[j].(resourcePermissions := Some(rp))], keys[1..], groups)
  {
  }

  /** The second loop of `get_enriched_build_definitions`: per key of the map,
      the first definition with that key, then its tags recorded one by one. */
  method RecordTags(defs: seq<Definition>, m: map<Key, seq<string>>, order: seq<Key>) returns (out: Result<seq<Definition>>)
    requires forall k :: k in order ==> k in m
    ensures out == ApplyKeys(defs, order, m)
  {
    var ds := defs;
    var i := 0;
    while i < |order|
      invariant 0 <= i <= |order|
      invariant ApplyKeys(ds, order[i..], m) == ApplyKeys(defs, order, m)
    {
      var key := order[i];
      assert order[i..][0] == key && order[i..][1..] == order[i + 1..];
      ApplyKeysUnfold(ds, order[i..], m);
      var target := FindDefinition(ds, key);
      if target.Some? {
        var n := target.value;
        var rp := RecordOn(ds[n].resourcePermissions.GetOr(map[]), m[key]);
        if rp.Err? {
          return Err(rp.error);
        }
        ds := ds[n := ds[n].(resourcePermissions := Some(rp.value))];
      }
      i := i + 1;
    }
    out := Ok(ds);
  }

  /** `get_enriched_build_definitions` as a whole. */
  method EnrichBuildDefinitions(defs: seq<Definition>, entries: seq<Entry>, queues: seq<Resource>) returns (out: Result<seq<Definition>>)
    requires PoolQueuesListed(entries, queues)
    ensures out == ReverseIndex(defs, entries, queues)
  {
    var built := BuildDefinitionsMap(entries, queues);
    if built.Err? {
      return Err(built.error);
    }
    var (m, order) := built.value;
    out := RecordTags(defs, m, order);
  }
}
