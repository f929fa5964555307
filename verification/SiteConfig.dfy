/** The shared IPv4 rules of the site configuration (internal/siteconfig/config.go). */
module SiteConfig {
  import opened Wrappers
  import opened Ipv4

  predicate GoodNetwork(p: Prefix) {
    && 8 <= p.bits <= 30 && p.Canonical()
    && GlobalUnicast(p.addr) && GlobalUnicast(p.Last())
  }

  /** A canonical unicast network from /8 through /30; canonical means the text is that of the masked prefix. */
  function Network(raw: string): (r: Option<Prefix>)
    ensures r.Some? ==> ParsePrefix(raw) == r && GoodNetwork(r.value)
    ensures r.None? ==> forall p: Prefix :: GoodNetwork(p) ==> PrefixText(p) != raw
  {
    hide ParsePrefix, PrefixText, GlobalUnicast;
    var p := ParsePrefix(raw);
    if p.Some? && 8 <= p.value.bits <= 30 && PrefixText(Prefix(p.value.Network(), p.value.bits)) == raw
       && GlobalUnicast(p.value.addr) && GlobalUnicast(p.value.Last())
    then
      PrefixTextInjective(p.value, Prefix(p.value.Network(), p.value.bits));
      DivIs(p.value.addr, Size(p.value.bits), Block(p.value.addr, p.value.bits), 0);
      p
    else
      assert forall q: Prefix :: GoodNetwork(q) ==> PrefixText(q) != raw by {
        forall q: Prefix | GoodNetwork(q) ensures PrefixText(q) != raw {
          CanonicalIsNetwork(q);
          if PrefixText(q) == raw {
            PrefixTextInjective(q, p.value);
          }
        }
      }
      None
  }

  lemma CanonicalIsNetwork(p: Prefix)
    requires p.Canonical()
    ensures p.Network() == p.addr
  {
  }

  /** An address the gateways may use: neither the network nor the broadcast address, and unicast. */
  predicate UsableHost(a: Addr, p: Prefix) {
    p.Contains(a) && a != p.addr && a != p.Last() && GlobalUnicast(a)
  }

  function Host(raw: string, p: Prefix): (r: Option<Addr>)
    ensures r.Some? ==> AddrText(r.value) == raw && UsableHost(r.value, p)
    ensures r.None? ==> forall a: Addr :: UsableHost(a, p) ==> AddrText(a) != raw
  {
    hide ParseAddr, AddrText, GlobalUnicast;
    var a := ParseAddr(raw);
    if a.Some? && UsableHost(a.value, p) then a
    else
      assert forall b: Addr :: UsableHost(b, p) ==> AddrText(b) != raw by {
        forall b: Addr | UsableHost(b, p) ensures AddrText(b) != raw {
          if AddrText(b) == raw {
            AddrTextInjective(b, a.value);
          }
        }
      }
      None
  }
}
