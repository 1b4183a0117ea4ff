/** The key of a TCP flow: two endpoints in canonical order, compared field by field. */
module Flows {
  datatype FlowKey = FlowKey(lowerIp: nat, lowerPort: nat, upperIp: nat, upperPort: nat) {
    predicate Less(other: FlowKey) {
      || lowerIp < other.lowerIp
      || (lowerIp == other.lowerIp &&
          (|| lowerPort < other.lowerPort
           || (lowerPort == other.lowerPort &&
               (|| upperIp < other.upperIp
                || (upperIp == other.upperIp && upperPort < other.upperPort)))))
    }

    predicate AtMost(other: FlowKey) { this == other || Less(other) }

    /** The port that names the service in coverage reports. */
    function ServicePort(): nat { if lowerPort <= upperPort then lowerPort else upperPort }
  }

  /** The fields of a key in the order in which keys are compared. */
  function Fields(k: FlowKey): seq<nat> { [k.lowerIp, k.lowerPort, k.upperIp, k.upperPort] }

  /** A key is less than another by the first field in which they differ. */
  lemma LessIff(a: FlowKey, b: FlowKey)
    ensures a.Less(b) <==>
            exists i: nat :: i < 4 && Fields(a)[i] < Fields(b)[i]
                             && forall j: nat :: j < i ==> Fields(a)[j] == Fields(b)[j]
    ensures a.AtMost(b) <==> a == b || a.Less(b)
  {
    var f, g := Fields(a), Fields(b);
    if a.Less(b) {
      var i: nat := if f[0] != g[0] then 0 else if f[1] != g[1] then 1 else if f[2] != g[2] then 2 else 3;
      assert f[i] < g[i] && forall j: nat :: j < i ==> f[j] == g[j];
    }
    if i: nat :| i < 4 && f[i] < g[i] && forall j: nat :: j < i ==> f[j] == g[j] {
      assert (i > 0 ==> f[0] == g[0]) && (i > 1 ==> f[1] == g[1]) && (i > 2 ==> f[2] == g[2]);
    }
  }

  datatype Direction = ClientToServer | ServerToClient
}
