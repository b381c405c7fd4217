/** Partition leases in the table event_partition_leases, shared by any number of nodes. */
module Leases {
  import opened Wrappers

  const TTL := 30 * SECOND

  datatype Lease = Lease(node: string, heartbeat: int)

  type Table = map<int, Lease>

  function AfterAcquire(t: Table, partition: int, node: string, now: int): Table {
    if partition in t then t else t[partition := Lease(node, now)]
  }

  predicate Holds(t: Table, partition: int, node: string) {
    partition in t && t[partition].node == node
  }

  function AfterRenew(t: Table, partition: int, node: string, now: int): Table {
    if Holds(t, partition, node) then t[partition := Lease(node, now)] else t
  }

  function AfterRelease(t: Table, partition: int, node: string): Table {
    if Holds(t, partition, node) then t - {partition} else t
  }

  /** heartbeat_at < NOW() - 30 seconds, which is what LeaseExpired tests. */
  predicate LeaseExpired(heartbeat: int, now: int) { now - heartbeat > TTL }

  function AfterExpiry(t: Table, now: int): Table {
    map p | p in t && !LeaseExpired(t[p].heartbeat, now) :: t[p]
  }

  class Ownership {
    var leases: Table

    constructor ()
      ensures leases == map[]
    {
      leases := map[];
    }

    method AcquirePartition(partition: int, node: string, now: int) returns (acquired: bool)
      modifies this
      ensures acquired <==> partition !in old(leases)
      ensures leases == AfterAcquire(old(leases), partition, node, now)
    {
      acquired := partition !in leases;
      if acquired {
        leases := leases[partition := Lease(node, now)];
      }
    }

    method RenewLease(partition: int, node: string, now: int)
      modifies this
      ensures leases == AfterRenew(old(leases), partition, node, now)
    {
      if partition in leases && leases[partition].node == node {
        leases := leases[partition := leases[partition].(heartbeat := now)];
      }
    }

    method ReleasePartition(partition: int, node: string)
      modifies this
      ensures leases == AfterRelease(old(leases), partition, node)
    {
      if partition in leases && leases[partition].node == node {
        leases := leases - {partition};
      }
    }

    method ReleaseExpiredLeases(now: int)
      modifies this
      ensures leases == AfterExpiry(old(leases), now)
    {
      var expired := set p | p in leases && LeaseExpired(leases[p].heartbeat, now);
      leases := leases - expired;
    }
  }

  // ---------- Runs ----------

  datatype Operation =
    | Acquire(partition: int, node: string)
    | Renew(partition: int, node: string)
    | Release(partition: int, node: string)
    | Expire

  datatype Action = At(now: int, op: Operation)

  function Step(t: Table, a: Action): Table {
    match a.op
    case Acquire(p, n) => AfterAcquire(t, p, n, a.now)
    case Renew(p, n) => AfterRenew(t, p, n, a.now)
    case Release(p, n) => AfterRelease(t, p, n)
    case Expire => AfterExpiry(t, a.now)
  }

  function Run(t: Table, acts: seq<Action>): Table
    decreases acts
  {
    if acts == [] then t else Step(Run(t, acts[..|acts| - 1]), acts[|acts| - 1])
  }

  ghost predicate Timed(acts: seq<Action>) {
    forall i, j :: 0 <= i < j < |acts| ==> acts[i].now <= acts[j].now
  }

  /** Step i writes the heartbeat of the node's lease: it takes the free partition, or renews what the node holds. */
  predicate Refreshes(acts: seq<Action>, i: nat, partition: int, node: string)
    requires i < |acts|
  {
    var t := Run(map[], acts[..i]);
    || (acts[i].op == Acquire(partition, node) && partition !in t)
    || (acts[i].op == Renew(partition, node) && Holds(t, partition, node))
  }

  /** The last step before `n` at which the node acquired the partition or renewed its lease. */
  predicate IsLastRefresh(acts: seq<Action>, r: nat, n: nat, partition: int, node: string) {
    && r < n <= |acts| && Refreshes(acts, r, partition, node)
    && forall i :: r < i < n ==> !Refreshes(acts, i, partition, node)
  }

  /** A held lease carries the time of its holder's last refresh. */
  lemma {:induction false} HeartbeatIsLastRefresh(
      acts: seq<Action>, n: nat, partition: int, node: string) returns (r: nat)
    requires n <= |acts| && Holds(Run(map[], acts[..n]), partition, node)
    ensures IsLastRefresh(acts, r, n, partition, node)
    ensures Run(map[], acts[..n])[partition].heartbeat == acts[r].now
    decreases n
  {
    assert acts[..n][..n - 1] == acts[..n - 1];
    if Refreshes(acts, n - 1, partition, node) {
      r := n - 1;
    } else {
      r := HeartbeatIsLastRefresh(acts, n - 1, partition, node);
    }
  }

  /** How a lease ends in one step: its holder gives it up, or it is more than the TTL old. */
  lemma LostInOneStep(acts: seq<Action>, n: nat, partition: int, node: string)
    requires n < |acts|
    requires Holds(Run(map[], acts[..n]), partition, node) && !Holds(Run(map[], acts[..n + 1]), partition, node)
    ensures || acts[n].op == Release(partition, node)
            || (acts[n].op == Expire && LeaseExpired(Run(map[], acts[..n])[partition].heartbeat, acts[n].now))
  {
    assert acts[..n + 1][..n] == acts[..n];
  }

  /** Between holding and not holding there is a step at which the lease is lost. */
  lemma {:induction false} FindLoss(
      acts: seq<Action>, from: nat, end: nat, partition: int, node: string) returns (k: nat)
    requires from <= end <= |acts|
    requires Holds(Run(map[], acts[..from]), partition, node) && !Holds(Run(map[], acts[..end]), partition, node)
    ensures from <= k < end
    ensures Holds(Run(map[], acts[..k]), partition, node) && !Holds(Run(map[], acts[..k + 1]), partition, node)
    decreases end
  {
    if Holds(Run(map[], acts[..end - 1]), partition, node) {
      k := end - 1;
    } else {
      k := FindLoss(acts, from, end - 1, partition, node);
    }
  }

  /** Step k of the run ended the node's lease properly. */
  ghost predicate EndedAt(acts: seq<Action>, k: nat, partition: int, node: string)
    requires k < |acts|
  {
    || acts[k].op == Release(partition, node)
    || (acts[k].op == Expire &&
        exists r: nat :: IsLastRefresh(acts, r, k, partition, node) && acts[k].now - acts[r].now > TTL)
  }

  /**
   Handover. If a node held the partition before step i and an Acquire at step j >= i succeeds,
   then in between the first node released it, or an expiry sweep came more than 30 seconds
   after its last acquire or renewal.
   */
  lemma Handover(acts: seq<Action>, i: nat, j: nat, partition: int, a: string, b: string)
    requires i <= j < |acts| && Holds(Run(map[], acts[..i]), partition, a)
    requires acts[j].op == Acquire(partition, b) && partition !in Run(map[], acts[..j])
    ensures exists k: nat :: i <= k < j && EndedAt(acts, k, partition, a)
  {
    var k := FindLoss(acts, i, j, partition, a);
    LostInOneStep(acts, k, partition, a);
    var r := HeartbeatIsLastRefresh(acts, k, partition, a);
    assert EndedAt(acts, k, partition, a);
  }

  /** Unless the first node released it, the next acquisition lies beyond the TTL of its last refresh. */
  lemma HandoverTime(acts: seq<Action>, i: nat, j: nat, partition: int, a: string, b: string)
    requires Timed(acts) && i <= j < |acts| && Holds(Run(map[], acts[..i]), partition, a)
    requires acts[j].op == Acquire(partition, b) && partition !in Run(map[], acts[..j])
    requires forall k :: i <= k < j ==> acts[k].op != Release(partition, a)
    ensures exists r: nat, k: nat ::
              i <= k < j && IsLastRefresh(acts, r, k, partition, a) && acts[j].now - acts[r].now > TTL
  {
    Handover(acts, i, j, partition, a, b);
    var k: nat :| i <= k < j && EndedAt(acts, k, partition, a);
    var r: nat :| IsLastRefresh(acts, r, k, partition, a) && acts[k].now - acts[r].now > TTL;
  }

  /** At every expiry sweep the node's last refresh is at most 30 seconds old. */
  ghost predicate RenewsInTime(acts: seq<Action>, from: nat, partition: int, node: string) {
    forall k: nat, r: nat :: from <= k < |acts| && acts[k].op == Expire && IsLastRefresh(acts, r, k, partition, node)
                             ==> acts[k].now - acts[r].now <= TTL
  }

  ghost predicate NeverLoses(acts: seq<Action>, from: nat, partition: int, node: string) {
    forall n :: from <= n <= |acts| ==> Holds(Run(map[], acts[..n]), partition, node)
  }

  /**
   A holder that does not release keeps its lease to the end of the run, whatever the other
   nodes do, exactly when no expiry sweep finds its last refresh more than 30 seconds old.
   */
  lemma KeepsIffRenewsInTime(acts: seq<Action>, from: nat, partition: int, node: string)
    requires from <= |acts| && Holds(Run(map[], acts[..from]), partition, node)
    requires forall k :: from <= k < |acts| ==> acts[k].op != Release(partition, node)
    ensures NeverLoses(acts, from, partition, node) <==> RenewsInTime(acts, from, partition, node)
  {
    if RenewsInTime(acts, from, partition, node) && !NeverLoses(acts, from, partition, node) {
      var n :| from <= n <= |acts| && !Holds(Run(map[], acts[..n]), partition, node);
      var k := FindLoss(acts, from, n, partition, node);
      LostInOneStep(acts, k, partition, node);
      var r := HeartbeatIsLastRefresh(acts, k, partition, node);
      assert false;
    }
    if NeverLoses(acts, from, partition, node) && !RenewsInTime(acts, from, partition, node) {
      var k: nat, r: nat :| from <= k < |acts| && acts[k].op == Expire
                            && IsLastRefresh(acts, r, k, partition, node) && acts[k].now - acts[r].now > TTL;
      LateIsLost(acts, k, r, partition, node);
      assert false;
    }
  }

  lemma LateIsLost(acts: seq<Action>, k: nat, r: nat, partition: int, node: string)
    requires k < |acts| && acts[k].op == Expire && Holds(Run(map[], acts[..k]), partition, node)
    requires IsLastRefresh(acts, r, k, partition, node) && acts[k].now - acts[r].now > TTL
    ensures partition !in Run(map[], acts[..k + 1])
  {
    var r' := HeartbeatIsLastRefresh(acts, k, partition, node);
    assert r == r';
    assert acts[..k + 1][..k] == acts[..k];
  }

  // ---------- What a node can see for itself ----------

  /** The node's own call at step i: the acquire that won it the lease, at step `won`, or a renewal after it. */
  predicate Own(acts: seq<Action>, won: nat, i: nat, partition: int, node: string) {
    i < |acts| && (i == won || (i > won && acts[i].op == Renew(partition, node)))
  }

  /** After each of its own calls the node makes another within 30 seconds, or the run ends in that time. */
  ghost predicate RenewsOften(acts: seq<Action>, won: nat, partition: int, node: string) {
    forall i: nat :: Own(acts, won, i, partition, node) ==>
                       || acts[|acts| - 1].now - acts[i].now <= TTL
                       || exists j: nat :: Follows(acts, won, i, j, partition, node)
  }

  ghost predicate Follows(acts: seq<Action>, won: nat, i: nat, j: nat, partition: int, node: string) {
    i < j < |acts| && Own(acts, won, j, partition, node) && acts[j].now - acts[i].now <= TTL
  }

  lemma {:induction false} LastOwn(acts: seq<Action>, won: nat, k: nat, partition: int, node: string) returns (i: nat)
    requires won < k <= |acts|
    ensures won <= i < k && Own(acts, won, i, partition, node)
    ensures forall j :: i < j < k ==> !Own(acts, won, j, partition, node)
    decreases k
  {
    if Own(acts, won, k - 1, partition, node) {
      i := k - 1;
    } else {
      i := LastOwn(acts, won, k - 1, partition, node);
    }
  }

  /** As long as the node holds the lease, its own calls are its refreshes. */
  lemma OwnIsRefresh(acts: seq<Action>, won: nat, i: nat, partition: int, node: string)
    requires won < i < |acts| && Holds(Run(map[], acts[..i]), partition, node)
    ensures Own(acts, won, i, partition, node) <==> Refreshes(acts, i, partition, node)
  {
  }

  ghost predicate HeldSince(acts: seq<Action>, won: nat, n: nat, partition: int, node: string) {
    forall m :: won < m <= n <= |acts| ==> Holds(Run(map[], acts[..m]), partition, node)
  }

  /** A holder's last refresh is then its last own call, and the next one is not yet due. */
  lemma LastRefreshIsRecent(acts: seq<Action>, won: nat, k: nat, r: nat, partition: int, node: string)
    requires Timed(acts) && won < k < |acts| && RenewsOften(acts, won, partition, node)
    requires acts[won].op == Acquire(partition, node) && partition !in Run(map[], acts[..won])
    requires HeldSince(acts, won, k, partition, node) && IsLastRefresh(acts, r, k, partition, node)
    requires !Own(acts, won, k, partition, node)
    ensures acts[k].now - acts[r].now <= TTL
  {
    var i := LastOwn(acts, won, k, partition, node);
    hide *;
    LastOwnIsLastRefresh(acts, won, k, r, i, partition, node);
    NextOwn(acts, won, k, i, partition, node);
  }

  lemma NextOwn(acts: seq<Action>, won: nat, k: nat, i: nat, partition: int, node: string)
    requires Timed(acts) && i < k < |acts| && RenewsOften(acts, won, partition, node)
    requires Own(acts, won, i, partition, node) && forall j :: i < j <= k ==> !Own(acts, won, j, partition, node)
    ensures acts[k].now - acts[i].now <= TTL
  {
    hide Own;
    assert acts[k].now <= acts[|acts| - 1].now;
    if acts[|acts| - 1].now - acts[i].now > TTL {
      var j: nat :| Follows(acts, won, i, j, partition, node);
      assert acts[k].now <= acts[j].now;
    }
  }

  lemma LastOwnIsLastRefresh(acts: seq<Action>, won: nat, k: nat, r: nat, i: nat, partition: int, node: string)
    requires won <= i < k < |acts| && Own(acts, won, i, partition, node)
    requires forall j :: i < j < k ==> !Own(acts, won, j, partition, node)
    requires acts[won].op == Acquire(partition, node) && partition !in Run(map[], acts[..won])
    requires HeldSince(acts, won, k, partition, node) && IsLastRefresh(acts, r, k, partition, node)
    ensures r == i
  {
    assert Refreshes(acts, i, partition, node) by {
      if i > won {
        OwnIsRefresh(acts, won, i, partition, node);
      }
    }
    if r > i {
      OwnIsRefresh(acts, won, r, partition, node);
    }
  }

  /**
   A node that wins a partition, does not release it, and makes its renewals at most 30 seconds
   apart, keeps the lease to the end of the run, whatever the other nodes and the sweeps do.
   */
  lemma {:induction false} RenewsOftenKeeps(acts: seq<Action>, won: nat, n: nat, partition: int, node: string)
    requires Timed(acts) && won < n <= |acts| && RenewsOften(acts, won, partition, node)
    requires acts[won].op == Acquire(partition, node) && partition !in Run(map[], acts[..won])
    requires forall k :: won < k < |acts| ==> acts[k].op != Release(partition, node)
    ensures HeldSince(acts, won, n, partition, node)
    decreases n
  {
    hide RenewsOften;
    assert acts[..n][..n - 1] == acts[..n - 1];
    if n > won + 1 {
      RenewsOftenKeeps(acts, won, n - 1, partition, node);
      var r := HeartbeatIsLastRefresh(acts, n - 1, partition, node);
      hide Run, IsLastRefresh;
      if acts[n - 1].op == Expire {
        LastRefreshIsRecent(acts, won, n - 1, r, partition, node);
      }
      KeptInOneStep(acts, n - 1, partition, node);
    }
  }

  lemma KeptInOneStep(acts: seq<Action>, n: nat, partition: int, node: string)
    requires n < |acts| && Holds(Run(map[], acts[..n]), partition, node)
    requires acts[n].op != Release(partition, node)
    requires acts[n].op == Expire ==> !LeaseExpired(Run(map[], acts[..n])[partition].heartbeat, acts[n].now)
    ensures Holds(Run(map[], acts[..n + 1]), partition, node)
  {
    assert acts[..n + 1][..n] == acts[..n];
  }

  // ---------- What one call leaves ----------

  /** A free partition goes to the caller, with this moment's heartbeat; a held one stays as it is. */
  lemma AcquireDoes(t: Table, partition: int, node: string, now: int, p: int)
    ensures var t' := AfterAcquire(t, partition, node, now);
            && (partition !in t ==> partition in t' && t'[partition].node == node && t'[partition].heartbeat == now)
            && (partition in t ==> t' == t)
            && (p != partition ==> (p in t' <==> p in t) && (p in t ==> t'[p] == t[p]))
  {
  }

  /** The holder's renewal moves its heartbeat and nothing else; another node's changes nothing. */
  lemma RenewDoes(t: Table, partition: int, node: string, now: int, p: int)
    ensures var t' := AfterRenew(t, partition, node, now);
            && (partition in t && t[partition].node == node
                ==> partition in t' && t'[partition].node == node && t'[partition].heartbeat == now)
            && (!(partition in t && t[partition].node == node) ==> t' == t)
            && (p != partition ==> (p in t' <==> p in t) && (p in t ==> t'[p] == t[p]))
  {
  }

  /** The holder's release frees the partition for whoever acquires it next; another node's changes nothing. */
  lemma ReleaseDoes(t: Table, partition: int, node: string, next: string, now: int, p: int)
    ensures var t' := AfterRelease(t, partition, node);
            && (partition in t && t[partition].node == node
                ==> partition !in t' && Holds(AfterAcquire(t', partition, next, now), partition, next))
            && (!(partition in t && t[partition].node == node) ==> t' == t)
            && (p != partition ==> (p in t' <==> p in t) && (p in t ==> t'[p] == t[p]))
  {
  }

  /** The sweep takes away exactly the leases whose heartbeat is more than 30 seconds old. */
  lemma ExpiryDoes(t: Table, now: int, p: int)
    ensures var t' := AfterExpiry(t, now);
            && (p in t' <==> p in t && now - t[p].heartbeat <= 30_000_000_000)
            && (p in t' ==> t'[p] == t[p])
  {
  }
}
