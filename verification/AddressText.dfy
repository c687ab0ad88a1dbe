/** The textual addresses: what AllocateIP prints for a bit, ReleaseIP maps back to that bit. */
module AddressText {
  import opened Text
  import opened AddressPool

  function Digit(d: nat): char
    requires d < 10
  {
    ('0' as int + d) as char
  }

  function Dec(n: nat): (s: string)
    ensures s != "" && forall c :: c in s ==> '0' <= c <= '9'
  {
    if n < 10 then [Digit(n)] else Dec(n / 10) + [Digit(n % 10)]
  }

  function TrimSuffix(s: string, suffix: string): string {
    if |suffix| <= |s| && s[|s| - |suffix|..] == suffix then s[..|s| - |suffix|] else s
  }

  // The subnet of the counter-th registered server.
  function Subnet(counter: nat): string {
    "10." + Dec(counter) + ".0.0/24"
  }

  // The text AllocateIP returns for a host of a subnet.
  function HostAddress(subnet: string, h: Host): string {
    TrimSuffix(subnet, ".0/24") + "." + Dec(h) + "/32"
  }

  function LeadingDigits(s: string, acc: nat): nat {
    if s != "" && '0' <= s[0] <= '9' then LeadingDigits(s[1..], acc * 10 + (s[0] as int - '0' as int)) else acc
  }

  // fmt.Sscanf with %d: an optional sign, then the leading digits; zero when there are none.
  function ScanInt(s: string): int {
    if s != "" && s[0] == '-' then -(LeadingDigits(s[1..], 0) as int)
    else if s != "" && s[0] == '+' then LeadingDigits(s[1..], 0)
    else LeadingDigits(s, 0)
  }

  // The bit ReleaseIP clears for an address, or None when it refuses the text.
  function ReleasedBit(ip: string): Option<int> {
    if |Split(ip, '.')| != 4 && '/' !in ip then None
    else
      var octets := Split(Split(ip, '/')[0], '.');
      Some(ScanInt(octets[|octets| - 1]) - 2)
  }

  lemma {:induction false} ScanDec(n: nat, rest: string)
    ensures LeadingDigits(Dec(n) + rest, 0) == LeadingDigits(rest, n)
  {
    if n < 10 {
      assert (Dec(n) + rest)[1..] == rest;
    } else {
      var tail := [Digit(n % 10)] + rest;
      assert Dec(n) + rest == Dec(n / 10) + tail;
      ScanDec(n / 10, tail);
      assert tail[1..] == rest;
    }
  }

  lemma {:induction false} LastPiece(p: string, s: string, sep: char)
    requires sep !in s
    ensures var r := Split(p + [sep] + s, sep); |r| >= 2 && r[|r| - 1] == s
  {
    var whole := p + [sep] + s;
    SplitHead(s, "", sep);
    if p == "" {
      assert whole[1..] == s;
    } else {
      LastPiece(p[1..], s, sep);
      assert whole[1..] == p[1..] + [sep] + s;
    }
  }

  lemma SuffixTrimmed(s: string, suffix: string)
    ensures TrimSuffix(s + suffix, suffix) == s
  {
    assert (s + suffix)[|s|..] == suffix;
  }

  lemma ScanPrinted(n: nat)
    ensures ScanInt(Dec(n)) == n
  {
    ScanDec(n, "");
    assert Dec(n) + "" == Dec(n);
    assert Dec(n)[0] in Dec(n);
  }

  lemma PrintedBit(prefix: string, h: Host)
    requires '/' !in prefix
    ensures ReleasedBit(prefix + "." + Dec(h) + "/32") == Some(h - 2)
  {
    var head := prefix + "." + Dec(h);
    var ip := head + "/32";
    assert ip == head + ['/'] + "32";
    SplitHead(head, "32", '/');
    assert ip[|head|] == '/';
    LastPiece(prefix, Dec(h), '.');
    assert head == prefix + ['.'] + Dec(h);
    ScanPrinted(h);
  }

  lemma ReleasedHost(counter: nat, h: Host)
    ensures HostAddress(Subnet(counter), h) == "10." + Dec(counter) + ".0" + "." + Dec(h) + "/32"
    ensures ReleasedBit(HostAddress(Subnet(counter), h)) == Some(h - 2)
  {
    var prefix := "10." + Dec(counter) + ".0";
    SuffixTrimmed(prefix, ".0/24");
    assert Subnet(counter) == prefix + ".0/24";
    assert '/' !in prefix;
    PrintedBit(prefix, h);
  }

  /** For every host of every registered server, the address is 10, the server's number, 0 and the host, and releasing
      it clears exactly the bit that was allocated; so distinct hosts of a server have distinct texts. */
  lemma ReleaseUndoesAllocate(counter: nat, h: Host)
    ensures HostAddress(Subnet(counter), h) == "10." + Dec(counter) + ".0" + "." + Dec(h) + "/32"
    ensures ReleasedBit(HostAddress(Subnet(counter), h)) == Some(h - 2)
    ensures forall g: Host :: HostAddress(Subnet(counter), g) == HostAddress(Subnet(counter), h) ==> g == h
  {
    ReleasedHost(counter, h);
    forall g: Host | HostAddress(Subnet(counter), g) == HostAddress(Subnet(counter), h)
      ensures g == h
    {
      ReleasedHost(counter, g);
    }
  }
}
