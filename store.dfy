/**
 * The PostgreSQL database behind the EF Core context: one sequence per table,
 * in the order the rows were inserted (the order an unordered query returns
 * them in this model), and the queries several services share.
 */
module Store {
  import opened Common
  import opened Entities

  class Database {
    var domains: seq<Domain>
    var checks: seq<Check>
    var probeRuns: seq<ProbeRun>
    var incidents: seq<Incident>
    var groups: seq<DomainGroup>
    var notifications: seq<Notification>
    var attempts: seq<NotificationAttempt>

    constructor ()
      ensures domains == [] && checks == [] && probeRuns == [] && incidents == []
      ensures groups == [] && notifications == [] && attempts == []
    {
      domains := [];
      checks := [];
      probeRuns := [];
      incidents := [];
      groups := [];
      notifications := [];
      attempts := [];
    }
  }

  /** One unit of probe work: an enabled check of an enabled domain. */
  datatype WorkItem = WorkItem(domain: Domain, check: Check)

  /** `domain.Checks.Where(c => c.Enabled)`: the enabled checks of the domain, in table order. */
  function EnabledChecksOf(checks: seq<Check>, domainId: Id): (r: seq<Check>)
    ensures |r| <= |checks|
    ensures forall c :: c in r <==> c in checks && c.domainId == domainId && c.enabled
  {
    if |checks| == 0 then []
    else
      var rest := EnabledChecksOf(checks[1..], domainId);
      if checks[0].domainId == domainId && checks[0].enabled then [checks[0]] + rest else rest
  }

  /** The enabled domains with their enabled checks, flattened in the order
      the nested loops of the worker and the scheduler visit them. */
  function EnabledWork(domains: seq<Domain>, checks: seq<Check>): (r: seq<WorkItem>)
    ensures forall w :: w in r <==>
      w.domain in domains && w.domain.enabled && w.check in EnabledChecksOf(checks, w.domain.id)
  {
    if |domains| == 0 then []
    else
      var d := domains[0];
      var rest := EnabledWork(domains[1..], checks);
      var here := if d.enabled then ItemsOf(d, EnabledChecksOf(checks, d.id)) else [];
      assert forall w :: w in [d] + domains[1..] <==> w in domains by {
        assert domains == [d] + domains[1..];
      }
      here + rest
  }

  /** The work items of one domain, one per check, in order. */
  function ItemsOf(d: Domain, cs: seq<Check>): (r: seq<WorkItem>)
    ensures |r| == |cs|
    ensures forall k :: 0 <= k < |r| ==> r[k] == WorkItem(d, cs[k])
    ensures forall w :: w in r <==> w.domain == d && w.check in cs
  {
    seq(|cs|, k requires 0 <= k < |cs| => WorkItem(d, cs[k]))
  }
}
