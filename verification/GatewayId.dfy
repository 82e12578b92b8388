/** The search for an unused gateway id. */
module GatewayId {
  import opened Text

  function Name(n: nat): string
  {
    "gw" + Decimal(n)
  }

  lemma NameInjective(m: nat, n: nat)
    requires Name(m) == Name(n)
    ensures m == n
  {
    assert Name(m)[2..] == Decimal(m) && Name(n)[2..] == Decimal(n);
    DecimalInjective(m, n);
  }

  /** Pigeonhole: consecutive names that are all taken are at most as many as the gateways. */
  lemma {:induction false} TakenNamesAreFew(gateways: set<string>, lo: nat, hi: nat)
    requires lo <= hi && forall i :: lo <= i < hi ==> Name(i) in gateways
    ensures hi - lo <= |gateways|
    decreases hi - lo
  {
    if lo < hi {
      var rest := gateways - {Name(hi - 1)};
      forall i | lo <= i < hi - 1
        ensures Name(i) in rest
      {
        if Name(i) == Name(hi - 1) {
          NameInjective(i, hi - 1);
        }
      }
      TakenNamesAreFew(rest, lo, hi - 1);
    }
  }

  /** N is printed without padding, so the first gateway of an empty network is gw1. */
  lemma NamesArePlain(n: nat)
    ensures Name(n)[..2] == "gw" && (Name(n)[2] == '0' <==> n == 0)
    ensures n < 10 ==> Name(n) == "gw" + ["0123456789"[n]]
    ensures n >= 10 ==> Name(n) == Name(n / 10) + ["0123456789"[n % 10]]
  {
    NoLeadingZero(n);
    DecimalDigits(n);
    DecimalDigits(n % 10);
  }

  /** The least unused gwN with N above the number of gateways; N is at most twice that number plus one. */
  method NextAvailableGatewayId(gateways: set<string>) returns (candidate: string, n: nat)
    ensures candidate == "gw" + Decimal(n) && candidate !in gateways
    ensures |gateways| + 1 <= n <= 2 * |gateways| + 1
    ensures forall i: nat :: |gateways| + 1 <= i < n ==> "gw" + Decimal(i) in gateways
  {
    n := |gateways| + 1;
    candidate := Name(n);
    while candidate in gateways
      invariant |gateways| + 1 <= n && candidate == Name(n)
      invariant forall i :: |gateways| + 1 <= i < n ==> Name(i) in gateways
      invariant n <= 2 * |gateways| + 1
      decreases 2 * |gateways| + 1 - n
    {
      TakenNamesAreFew(gateways, |gateways| + 1, n + 1);
      n := n + 1;
      candidate := Name(n);
    }
    assert forall i: nat :: |gateways| + 1 <= i < n ==> Name(i) == "gw" + Decimal(i);
  }
}
