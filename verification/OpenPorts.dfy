/** internal/adapters/network.go: the ports a later adapter takes over from the findings gathered before it. */
module OpenPorts {
  import opened Text
  import opened Ordering
  import opened Findings

  function OpenAt(target: string): Finding -> bool {
    (f: Finding) => f.target == target && f.port != 0 && HasPrefix(f.signature, "open-port:")
  }

  function PortOf(f: Finding): int { f.port }

  /** Each open port of the target once, in the order the findings report them. */
  method OpenPortsFrom(prior: seq<Finding>, target: string) returns (ports: seq<int>)
    ensures NoDuplicates(ports)
    ensures forall p :: p in ports <==>
              p != 0 && exists f :: f in prior && f.target == target && f.port == p && HasPrefix(f.signature, "open-port:")
    ensures ports == Distinct(MapSeq(PortOf, Filter(OpenAt(target), prior)))
  {
    ports := [];
    var seen: set<int> := {};
    for i := 0 to |prior|
      invariant ports == Distinct(MapSeq(PortOf, Filter(OpenAt(target), prior[..i])))
      invariant forall p :: p in seen <==> p in ports
    {
      var f := prior[i];
      TakeNext(prior, i);
      FilterStep(OpenAt(target), prior[..i], f);
      MapSnoc(PortOf, Filter(OpenAt(target), prior[..i]), f);
      DistinctSnoc(MapSeq(PortOf, Filter(OpenAt(target), prior[..i])), f.port);
      if f.target != target || f.port == 0 {
        continue;
      }
      if !HasPrefix(f.signature, "open-port:") {
        continue;
      }
      if f.port !in seen {
        seen := seen + {f.port};
        ports := ports + [f.port];
      }
    }
    assert prior[..|prior|] == prior;
    MembersOf(prior, target);
  }

  lemma MembersOf(prior: seq<Finding>, target: string)
    ensures forall p :: p in MapSeq(PortOf, Filter(OpenAt(target), prior)) <==>
              p != 0 && exists f :: f in prior && f.target == target && f.port == p && HasPrefix(f.signature, "open-port:")
  {
    var fs := Filter(OpenAt(target), prior);
    var ps := MapSeq(PortOf, fs);
    forall p | p in ps ensures exists f :: f in fs && f.port == p {
      var i :| 0 <= i < |ps| && ps[i] == p;
      assert fs[i] in fs;
    }
    forall f | f in fs ensures f.port in ps {
      var i :| 0 <= i < |fs| && fs[i] == f;
      assert ps[i] == f.port;
    }
  }
}
