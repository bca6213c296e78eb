/** The pool/queue merge: queues are grouped under the pool they belong to, and
    a pool's pipeline permissions become the de-duplicated union of its
    queues' permissions. A pool holds its queues by id; readers resolve the
    ids against the current queue list. */
module Merger {
  import opened Wrappers
  import opened Seqs
  import opened PipelineKeys
  import opened Resources

  /** `q.get("pool", {}).get("id")` */
  function PoolIdOf(q: Resource): Option<string> {
    if q.detail.QueueDetail? then q.detail.poolId else None
  }

  /** The queues whose pool id is `k`, in input order. */
  function QueuesWithPool(k: Option<string>, queues: seq<Resource>): (r: seq<Resource>)
    ensures forall q :: q in r <==> q in queues && PoolIdOf(q) == k
    ensures |r| <= |queues|
    decreases |queues|
  {
    if queues == [] then []
    else
      var p := queues[..|queues| - 1];
      var q := queues[|queues| - 1];
      assert queues == p + [q];
      var rest := QueuesWithPool(k, p);
      if PoolIdOf(q) == k then rest + [q] else rest
  }

  /** Grouping keeps input order: it distributes over concatenation. */
  lemma {:induction false} QueuesWithPoolConcat(k: Option<string>, a: seq<Resource>, b: seq<Resource>)
    ensures QueuesWithPool(k, a + b) == QueuesWithPool(k, a) + QueuesWithPool(k, b)
    decreases |b|
  {
    if b != [] {
      var b' := b[..|b| - 1];
      assert (a + b)[..|a + b| - 1] == a + b';
      assert (a + b)[|a + b| - 1] == b[|b| - 1];
      assert b[..|b| - 1] == b';
      QueuesWithPoolConcat(k, a, b');
    } else {
      assert a + b == a;
    }
  }

  function QueueIds(qs: seq<Resource>): (ids: seq<string>)
    ensures |ids| == |qs| && forall i :: 0 <= i < |qs| ==> ids[i] == qs[i].id
  {
    seq(|qs|, i requires 0 <= i < |qs| => qs[i].id)
  }

  /** A queue's permissions, `[]` when it has none. */
  function QueuePermissions(q: Resource): seq<Key> {
    q.pipelinePermissions.GetOr([])
  }

  function PermissionLists(qs: seq<Resource>): (ps: seq<seq<Key>>)
    ensures |ps| == |qs| && forall i :: 0 <= i < |qs| ==> ps[i] == QueuePermissions(qs[i])
  {
    seq(|qs|, i requires 0 <= i < |qs| => QueuePermissions(qs[i]))
  }

  /** The permissions of a pool with queues `qs`. */
  function PoolPermissions(qs: seq<Resource>): seq<Key> {
    Dedup(Flatten(PermissionLists(qs)))
  }

  /** Each queue permission exactly once, in first-occurrence order, and
      nothing else. */
  lemma PoolPermissionsExact(qs: seq<Resource>, k: Key)
    ensures k in PoolPermissions(qs) <==> exists i :: 0 <= i < |qs| && k in QueuePermissions(qs[i])
    ensures NoDup(PoolPermissions(qs))
    ensures forall i, j :: 0 <= i < j < |PoolPermissions(qs)| ==>
      FirstIndex(Flatten(PermissionLists(qs)), PoolPermissions(qs)[i]) < FirstIndex(Flatten(PermissionLists(qs)), PoolPermissions(qs)[j])
  {
    FlattenMember(PermissionLists(qs), k);
    DedupFirstOccurrenceOrder(Flatten(PermissionLists(qs)));
  }

  /** Queues straight from the crawl carry no permissions, so neither do the
      pools they are merged into. */
  lemma UnresolvedQueuesGiveNoPermissions(qs: seq<Resource>)
    requires forall i :: 0 <= i < |qs| ==> qs[i].pipelinePermissions.None?
    ensures PoolPermissions(qs) == []
  {
    var pp := PoolPermissions(qs);
    forall k ensures k !in multiset(pp) {
      PoolPermissionsExact(qs, k);
      assert k !in pp;
    }
    assert multiset(pp) == multiset{};
  }

  /** One more queue adds its permissions at the end of the flattened list. */
  lemma FlattenPermissionsSnoc(qs: seq<Resource>, i: nat)
    requires i < |qs|
    ensures Flatten(PermissionLists(qs[..i + 1])) == Flatten(PermissionLists(qs[..i])) + QueuePermissions(qs[i])
  {
    var ps := PermissionLists(qs[..i + 1]);
    assert ps[..i] == PermissionLists(qs[..i]);
  }

  /** The inner loop: each permission of one queue, appended unless present. */
  method AddQueuePermissions(perms: seq<Key>, ghost flat: seq<Key>, ps: seq<Key>) returns (out: seq<Key>)
    requires perms == Dedup(flat)
    ensures out == Dedup(flat + ps)
  {
    out := perms;
    assert flat + ps[..0] == flat;
    for j := 0 to |ps|
      invariant out == Dedup(flat + ps[..j])
    {
      DedupSnoc(flat + ps[..j], ps[j]);
      assert flat + ps[..j + 1] == (flat + ps[..j]) + [ps[j]];
      if ps[j] !in out {
        out := out + [ps[j]];
      }
    }
    assert ps[..|ps|] == ps;
  }

  /** `calculate_pool_pipeline_permissions` */
  method CalculatePoolPipelinePermissions(queues: seq<Resource>) returns (perms: seq<Key>)
    ensures perms == PoolPermissions(queues)
  {
    perms := [];
    for i := 0 to |queues|
      invariant perms == Dedup(Flatten(PermissionLists(queues[..i])))
    {
      FlattenPermissionsSnoc(queues, i);
      perms := AddQueuePermissions(perms, Flatten(PermissionLists(queues[..i])), QueuePermissions(queues[i]));
    }
    assert queues[..|queues|] == queues;
  }

  /** A pool after the merge: its queues (by id) and their permissions. */
  function MergedPool(p: Resource, queues: seq<Resource>): (m: Resource)
    ensures m.id == p.id && m.name == p.name && m.detail == p.detail && m.kProject == p.kProject
    ensures m.queues.Some? && m.pipelinePermissions.Some?
  {
    var qs := QueuesWithPool(Some(p.id), queues);
    p.(queues := Some(QueueIds(qs)), pipelinePermissions := Some(PoolPermissions(qs)))
  }

  /** A pool's queues are exactly those naming it, in input order, or none. */
  lemma MergedPoolQueues(p: Resource, queues: seq<Resource>)
    ensures MergedPool(p, queues).queues == Some(QueueIds(QueuesWithPool(Some(p.id), queues)))
    ensures (forall q :: q in queues ==> PoolIdOf(q) != Some(p.id)) ==> MergedPool(p, queues).queues == Some([])
  {
  }

  /** `queueMap` holds, for each pool id, the queues naming it, and has no
      entry for a pool id no queue names. */
  ghost predicate Grouped(queueMap: map<Option<string>, seq<Resource>>, queues: seq<Resource>) {
    && (forall k :: k in queueMap ==> queueMap[k] == QueuesWithPool(k, queues))
    && (forall k :: k !in queueMap ==> QueuesWithPool(k, queues) == [])
  }

  /** One more queue joins the group of its pool id and no other. */
  lemma QueuesWithPoolSnoc(queues: seq<Resource>, i: nat)
    requires i < |queues|
    ensures forall k ::
      QueuesWithPool(k, queues[..i + 1]) == QueuesWithPool(k, queues[..i]) + (if PoolIdOf(queues[i]) == k then [queues[i]] else [])
  {
    assert queues[..i + 1][..i] == queues[..i];
  }

  /** `merge_pools_and_queues`: queues grouped by pool id in one pass, then
      every pool updated from its group. */
  method MergePoolsAndQueues(pools: seq<Resource>, queues: seq<Resource>) returns (merged: seq<Resource>)
    ensures |merged| == |pools|
    ensures forall i :: 0 <= i < |pools| ==> merged[i] == MergedPool(pools[i], queues)
  {
    var queueMap := GroupQueues(queues);
    merged := [];
    var j := 0;
    while j < |pools|
      invariant 0 <= j <= |pools|
      invariant |merged| == j
      invariant forall n :: 0 <= n < j ==> merged[n] == MergedPool(pools[n], queues)
    {
      var p := pools[j];
      var qs := if Some(p.id) in queueMap then queueMap[Some(p.id)] else [];
      var perms := CalculatePoolPipelinePermissions(qs);
      merged := merged + [p.(queues := Some(QueueIds(qs)), pipelinePermissions := Some(perms))];
      j := j + 1;
    }
  }

  /** The first pass: each queue appended to the list of its pool id. */
  method GroupQueues(queues: seq<Resource>) returns (queueMap: map<Option<string>, seq<Resource>>)
    ensures Grouped(queueMap, queues)
  {
    queueMap := map[];
    var i := 0;
    while i < |queues|
      invariant 0 <= i <= |queues|
      invariant Grouped(queueMap, queues[..i])
    {
      var q := queues[i];
      var k := PoolIdOf(q);
      QueuesWithPoolSnoc(queues, i);
      if k !in queueMap {
        queueMap := queueMap[k := []];
      }
      queueMap := queueMap[k := queueMap[k] + [q]];
      i := i + 1;
    }
    assert queues[..i] == queues;
  }
}
