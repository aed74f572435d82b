/** The forwarder's loops over its targets, in whatever order the map gives them. */
module Forwarder {
  import opened Proto
  import R = Routing

  /** The two target lists recorded with a request: each target once, on the side of its readiness. */
  method SplitTargets(targets: map<string, bool>) returns (connected: seq<string>, disconnected: seq<string>)
    ensures forall node :: node in connected <==> node in targets && targets[node]
    ensures forall node :: node in disconnected <==> node in targets && !targets[node]
    ensures |connected| + |disconnected| == |targets|
  {
    connected, disconnected := [], [];
    var todo := targets.Keys;
    while todo != {}
      invariant todo <= targets.Keys
      invariant forall node :: node in connected <==> node in targets && node !in todo && targets[node]
      invariant forall node :: node in disconnected <==> node in targets && node !in todo && !targets[node]
      invariant |connected| + |disconnected| + |todo| == |targets.Keys|
      decreases |todo|
    {
      var node :| node in todo;
      if targets[node] {
        connected := connected + [node];
      } else {
        disconnected := disconnected + [node];
      }
      todo := todo - {node};
    }
  }

  /** The loop that answers for the targets that are not connected and starts a goroutine for each other one. */
  method StartCallers(req: TaskRequest, targets: map<string, bool>)
    returns (results: map<string, R.Outcome>, started: seq<string>)
    ensures results == R.FreshForward(req, targets).results
    ensures forall node :: node in started <==> node in R.Connected(targets)
    ensures |started| + |results| == |targets|
  {
    results, started := map[], [];
    var todo := targets.Keys;
    while todo != {}
      invariant todo <= targets.Keys
      invariant results == map node | node in targets.Keys - todo && !targets[node] :: R.Synthetic(Disconnected)
      invariant forall node :: node in started <==> node in targets && node !in todo && targets[node]
      invariant |started| + |results| + |todo| == |targets.Keys|
      decreases |todo|
    {
      var node :| node in todo;
      if !targets[node] {
        assert node !in results;
        results := results[node := R.Synthetic(Disconnected)];
      } else {
        started := started + [node];
      }
      todo := todo - {node};
    }
  }
}
