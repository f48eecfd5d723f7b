/** What `ORDER BY created_at ASC LIMIT ? FOR UPDATE SKIP LOCKED` returns. */
module Selection {
  import opened Common

  /** The oldest of the ready ids, all of them if they fit the limit. */
  method OldestFirst(createdAt: seq<nat>, ready: set<nat>, limit: nat) returns (ids: seq<nat>)
    requires forall id | id in ready :: id < |createdAt|
    ensures |ids| <= limit && Distinct(ids) && forall k | 0 <= k < |ids| :: ids[k] in ready
    ensures forall j, k | 0 <= j < k < |ids| :: createdAt[ids[j]] <= createdAt[ids[k]]
    ensures forall id | id in ready && id !in ids ::
              |ids| == limit && forall k | 0 <= k < |ids| :: createdAt[ids[k]] <= createdAt[id]
  {
    ids := [];
    while |ids| < limit
      invariant |ids| <= limit && Distinct(ids) && forall k | 0 <= k < |ids| :: ids[k] in ready
      invariant forall j, k | 0 <= j < k < |ids| :: createdAt[ids[j]] <= createdAt[ids[k]]
      invariant forall id, k | id in ready && id !in ids && 0 <= k < |ids| :: createdAt[ids[k]] <= createdAt[id]
    {
      var next := OldestRemaining(createdAt, ready, ids);
      if next.None? {
        return;
      }
      ids := ids + [next.value];
    }
  }

  /** The oldest ready id not taken yet. */
  method OldestRemaining(createdAt: seq<nat>, ready: set<nat>, taken: seq<nat>) returns (best: Option<nat>)
    requires forall id | id in ready :: id < |createdAt|
    ensures best.None? ==> forall id | id in ready :: id in taken
    ensures best.Some? ==> best.value in ready && best.value !in taken
    ensures best.Some? ==> forall id | id in ready && id !in taken :: createdAt[best.value] <= createdAt[id]
  {
    best := None;
    for id := 0 to |createdAt|
      invariant best.None? ==> forall i | i in ready && i < id :: i in taken
      invariant best.Some? ==> best.value in ready && best.value !in taken
      invariant best.Some? ==>
                  forall i | i in ready && i < id && i !in taken :: createdAt[best.value] <= createdAt[i]
    {
      if id in ready && id !in taken && (best.None? || createdAt[id] < createdAt[best.value]) {
        best := Some(id);
      }
    }
  }
}
