/** What the reachability cache does to the calls: nodes known to be down are left out of them. */
module KmsRouting {
  import opened Bytes
  import opened KmsNodes
  import KmsCache
  import KmsCalls

  /**
   * A listed node reported unreachable is left out of the candidates until the report expires, ten
   * seconds after its clock reading, unless a check as late replaces it or every listed node is down.
   */
  lemma {:induction false} ReportedDownIsLeftOut(
    s: KmsCache.State, p: nat, trace: seq<(nat, KmsCache.Event)>, out: seq<Node>)
    requires KmsCache.Inv(s) && KmsCache.TaskOf(s, p).Reporting? && !KmsCache.TaskOf(s, p).outcome.reachable
    requires var url, after := KmsCache.TaskOf(s, p).url, KmsCache.Step(s, p, KmsCache.WriteReport);
             && KmsCache.CachedObs(s, url).Some? && after.Some?
             && KmsCache.ListedThroughout(after.value, trace, url)
             && !KmsCache.Rechecked(after.value, trace, url, KmsCache.CachedObs(after.value, url).value)
    ensures var t := KmsCache.TaskOf(s, p);
            var end := KmsCache.Run(KmsCache.Step(s, p, KmsCache.WriteReport).value, trace);
            && end.Some?
            && (end.value.now < t.expiresAt
                && KmsCalls.Prioritized(CachedNodes(end.value.cache), end.value.now, out) ==>
                  forall n :: n in out ==> n.url != t.url)
  {
    var t := KmsCache.TaskOf(s, p);
    var after := KmsCache.Step(s, p, KmsCache.WriteReport).value;
    KmsCache.ReportIsVisible(s, p, t.url);
    KmsCache.StepKeepsInv(s, p, KmsCache.WriteReport);
    var obs := KmsCache.CachedObs(after, t.url).value;
    KmsCache.ObservationHolds(after, trace, t.url, obs);
    var end := KmsCache.Run(after, trace).value;
    if end.now < t.expiresAt && KmsCalls.Prioritized(CachedNodes(end.cache), end.now, out) {
      KmsCache.RunKeepsInv(after, trace);
      KmsCache.CacheOrdered(end);
      forall n | n in out
        ensures n.url != t.url
      {
        KmsCalls.CandidateIsNotDown(CachedNodes(end.cache), end.now, out, n);
        Unlisted(end, n, obs, t.url);
      }
    }
  }

  lemma {:induction false} Unlisted(s: KmsCache.State, n: Node, obs: Observation, url: Url)
    requires Ordered(CachedNodes(s.cache)) && n in CachedNodes(s.cache)
    requires KmsCache.CachedObs(s, url) == Some(obs)
    ensures n.url == url ==> n.obs == obs
  {
    var ns := CachedNodes(s.cache);
    var i :| 0 <= i < |ns| && ns[i] == n;
    KmsCache.LookupUnique(ns, i);
  }
}
