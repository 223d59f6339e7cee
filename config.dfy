/**
 * The port checks of the command line (tcpfilter.c:370-404).
 *
 * A port is a 32-bit `int` holding the result of atoi.  It is rejected when
 * `p & ~0xFFFF` is non-zero (a bit above the low sixteen is set, which
 * includes every negative value in two's complement) or when it is 0.  Every
 * `-p` option is checked as it is parsed and the last one is used; when no
 * listen port is given, the proxy listens on the remote port.
 */
module Config {

  /** A 32-bit C `int`, as its two's complement bit pattern. */
  type int32 = bv32

  /** The value of an int. */
  function Value(p: int32): int
  {
    if p < 0x8000_0000 then p as int else p as int - 0x1_0000_0000
  }

  /** `p & ~0xFFFF || p == 0` is false: the port is accepted. */
  predicate PortAccepted(p: int32)
  {
    p & !0xFFFF == 0 && p != 0
  }

  /** On the bit pattern: no bit above the low sixteen, and not zero. */
  lemma AcceptedBits(p: int32)
    ensures PortAccepted(p) <==> 0 < p <= 0xFFFF
  {
  }

  lemma ValueSmall(p: int32)
    requires p <= 0xFFFF
    ensures Value(p) == p as int && (p == 0 <==> Value(p) == 0)
  {
  }

  lemma ValueLarge(p: int32)
    requires 0xFFFF < p
    ensures Value(p) < 0 || 0xFFFF < Value(p)
  {
  }

  /** The bit test accepts exactly the ports 1 to 65535, and no negative value. */
  lemma PortAcceptedRange(p: int32)
    ensures PortAccepted(p) <==> 1 <= Value(p) <= 0xFFFF
  {
    AcceptedBits(p);
    if p <= 0xFFFF {
      ValueSmall(p);
    } else {
      ValueLarge(p);
    }
  }

  datatype Option<T> = None | Some(value: T)

  datatype Ports = Ports(listen: int32, remote: int32)

  /**
   * The ports the proxy uses, given the values of every `-p` option in the
   * order given and the remote port argument; None when the program exits
   * with "invalid listen port" or "invalid remote port".  Each `-p` is
   * checked as it is parsed and the last one is used; with none, the proxy
   * listens on the remote port.
   */
  function ChoosePorts(listens: seq<int32>, remote: int32): (r: Option<Ports>)
    ensures r.Some? <==> (forall k | 0 <= k < |listens| :: PortAccepted(listens[k])) && PortAccepted(remote)
    ensures r.Some? ==> r.value.remote == remote
    ensures r.Some? ==> r.value.listen == if listens == [] then remote else listens[|listens| - 1]
  {
    if exists k | 0 <= k < |listens| :: !PortAccepted(listens[k]) then None
    else if !PortAccepted(remote) then None
    else Some(Ports(if listens == [] then remote else listens[|listens| - 1], remote))
  }

  /** Both ports the proxy ends up using lie in 1 to 65535. */
  lemma ChosenPortsInRange(listens: seq<int32>, remote: int32)
    requires ChoosePorts(listens, remote).Some?
    ensures var r := ChoosePorts(listens, remote).value;
      1 <= Value(r.listen) <= 0xFFFF && 1 <= Value(r.remote) <= 0xFFFF
  {
    PortAcceptedRange(remote);
    if listens != [] {
      PortAcceptedRange(listens[|listens| - 1]);
    }
  }

  /** `-p 0 -p 80`: the first option already ends the program, though the last one is valid. */
  lemma EarlierListenPortChecked()
    ensures ChoosePorts([0, 80], 80) == None
  {
    var listens: seq<int32> := [0, 80];
    assert !PortAccepted(listens[0]);
  }

  /** `-p 8080 -p 81`: both are valid and the last one is used. */
  lemma LastListenPortUsed()
    ensures ChoosePorts([8080, 81], 443) == Some(Ports(81, 443))
  {
  }
}
