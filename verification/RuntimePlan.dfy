/** The descriptor budget checked at start-up, and why it is enough. */
module RuntimePlan {
  import opened Bytes
  import opened OwnerPool
  import U = Upstream
  import UpstreamSafety

  const USIZE_MAX := 0xffff_ffff_ffff_ffff
  const LISTENER_FD_BUDGET := 1
  const ANCILLARY_FD_RESERVE := 512

  function CheckedAdd(a: Option<nat>, b: nat): Option<nat> {
    if a.None? || a.value + b > USIZE_MAX then None else Some(a.value + b)
  }

  function RequiredNofile(proxyMode: bool, downstream: nat, upstream: nat): Option<nat> {
    var base := if proxyMode then CheckedAdd(CheckedAdd(Some(downstream), upstream), CAPACITY) else Some(downstream);
    CheckedAdd(CheckedAdd(base, LISTENER_FD_BUDGET), ANCILLARY_FD_RESERVE)
  }

  /** With a descriptor limit of at least the required number, every reachable
      state of a proxy with at most `downstream` accepted connections leaves the
      listener and the reserve available, less one descriptor for each thread
      that is just failing an upgrade; and the whole reserve if no upgrade that
      failed after its handover is still open. */
  lemma BudgetSuffices(downstream: nat, upstream: nat, workers: nat, accepted: nat, effective: nat, events: seq<U.Event>)
    requires RequiredNofile(true, downstream, upstream).Some? && RequiredNofile(true, downstream, upstream).value <= effective
    requires accepted <= downstream
    ensures var s := U.Exec(U.Idle(upstream, workers), events);
            && accepted + |s.live| + 1 + 512 <= effective + workers
            && ((forall t :: t in s.live ==> !UpstreamSafety.FailedAfterHandover(s, t)) ==> accepted + |s.live| + 1 + 512 <= effective)
  {
    UpstreamSafety.LiveIsBounded(upstream, workers, events);
  }

  /** The required number is what the configuration adds up to, the eight pool
      slots, the listener and the reserve included, unless that does not fit a
      machine word; without the proxy there are no upstream connections. */
  lemma RequiredIs(proxyMode: bool, downstream: nat, upstream: nat)
    ensures var sum := if proxyMode then downstream + upstream + 8 + 1 + 512 else downstream + 1 + 512;
            RequiredNofile(proxyMode, downstream, upstream) == if sum < 0x1_0000_0000_0000_0000 then Some(sum) else None
  {
  }
}
