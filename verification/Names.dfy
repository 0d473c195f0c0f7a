/** The texts that leave the system: names as their patterns, numbers, keys and endpoints. */
module Names {
  import opened Model
  import opened Keyspace
  import opened Services
  import opened Pickers

  // -------------------------------------------------------------------- patterns

  /** Lower-case letters and digits, perhaps upper-case letters, and some marks. */
  datatype Class = Class(upper: bool, marks: set<char>)

  predicate InClass(c: char, chars: Class) {
    'a' <= c <= 'z' || '0' <= c <= '9' || (chars.upper && 'A' <= c <= 'Z') || c in chars.marks
  }

  /** One piece of a pattern: between `least` and `most` characters of a class. */
  datatype Piece = Piece(of: Class, least: nat, most: nat)

  predicate MatchesPiece(s: string, p: Piece) {
    p.least <= |s| <= p.most && forall i :: 0 <= i < |s| ==> InClass(s[i], p.of)
  }

  /** The whole text can be cut into pieces that match in order. */
  predicate Matches(s: string, pattern: seq<Piece>) {
    if pattern == [] then s == ""
    else exists n :: 0 <= n <= |s| && MatchesPiece(s[..n], pattern[0]) && Matches(s[n..], pattern[1..])
  }

  const NAME := [Piece(Class(false, {}), 1, 1), Piece(Class(false, {'-'}), 1, 62), Piece(Class(false, {}), 1, 1)]
  const TOKEN := [Piece(Class(true, {'.', '_', '-'}), 1, 128)]
  const CONFIG_KEY := [Piece(Class(false, {'.', '_', '-'}), 1, 128)]
  const CAPABILITY := [Piece(Class(false, {'.', '-'}), 1, 128)]
  const PROTOCOL := [Piece(Class(false, {'.', '_', '-'}), 1, 32)]
  const HOSTNAME := [Piece(Class(true, {'.', '-'}), 1, 253)]

  lemma MatchesOne(s: string, p: Piece)
    ensures Matches(s, [p]) <==> MatchesPiece(s, p)
  {
    assert s[..|s|] == s && s[|s|..] == "";
    assert [p][1..] == [];
    if MatchesPiece(s, p) {
      assert MatchesPiece(s[..|s|], [p][0]) && Matches(s[|s|..], [p][1..]);
    }
  }

  lemma MatchesFirst(s: string, p: Piece, rest: seq<Piece>, n: nat)
    requires p.least == p.most == n
    ensures Matches(s, [p] + rest) <==> n <= |s| && MatchesPiece(s[..n], p) && Matches(s[n..], rest)
  {
    assert ([p] + rest)[1..] == rest;
  }

  /** Both characters of a name's ends are cut off, and the rest is its middle. */
  lemma NamesMatch(s: string)
    ensures ValidName(s) <==> Matches(s, NAME)
  {
    var (first, middle, last) := (NAME[0], NAME[1], NAME[2]);
    assert NAME == [first] + ([middle] + [last]);
    MatchesFirst(s, first, [middle] + [last], 1);
    if |s| >= 2 {
      EndsWithOne(s[1..], middle, last);
      hide Matches;
      var inner := s[1..][..|s| - 2];
      assert s[1..][|s| - 2..] == [s[|s| - 1]] && s[..1] == [s[0]];
      assert forall i :: 0 < i < |s| - 1 ==> s[i] == inner[i - 1];
    } else if |s| == 1 {
      EndsWithOne(s[1..], middle, last);
    }
  }

  lemma EndsWithOne(s: string, middle: Piece, last: Piece)
    requires last.least == last.most == 1
    ensures Matches(s, [middle] + [last]) <==>
            |s| > 0 && MatchesPiece(s[..|s| - 1], middle) && MatchesPiece(s[|s| - 1..], last)
  {
    assert ([middle] + [last])[1..] == [last];
    forall n | 0 <= n <= |s|
      ensures Matches(s[n..], [last]) ==> n == |s| - 1
      ensures Matches(s[n..], [last]) <==> MatchesPiece(s[n..], last)
    {
      MatchesOne(s[n..], last);
    }
    if |s| > 0 {
      assert Matches(s[|s| - 1..], [last]) <==> MatchesPiece(s[|s| - 1..], last);
    }
  }

  /** Every validator accepts exactly the texts of its pattern. */
  lemma ValidatorsMatchTheirPatterns(s: string)
    ensures ValidName(s) <==> Matches(s, NAME)
    ensures ValidInstanceID(s) <==> Matches(s, TOKEN)
    ensures ValidConfigKey(s) <==> Matches(s, CONFIG_KEY)
    ensures ValidCapability(s) <==> Matches(s, CAPABILITY)
    ensures ValidProtocol(s) <==> Matches(s, PROTOCOL)
    ensures ValidAddress(s) <==> Matches(s, HOSTNAME)
  {
    NamesMatch(s);
    MatchesOne(s, TOKEN[0]);
    MatchesOne(s, CONFIG_KEY[0]);
    MatchesOne(s, CAPABILITY[0]);
    MatchesOne(s, PROTOCOL[0]);
    MatchesOne(s, HOSTNAME[0]);
    hide Matches, ValidName;
  }

  /** Metadata keys are tokens, and no value holds a null character. */
  lemma MetadataMatches(m: map<string, string>)
    ensures ValidMetadata(m) <==> forall k :: k in m ==> Matches(k, TOKEN) && '\0' !in m[k]
  {
    hide Matches;
    forall k | k in m
      ensures ValidInstanceID(k) <==> Matches(k, TOKEN)
    {
      ValidatorsMatchTheirPatterns(k);
    }
  }

  // ------------------------------------------------------------- numbers and ids

  predicate Digits(text: string) {
    forall i :: 0 <= i < |text| ==> '0' <= text[i] <= '9'
  }

  /** The number some digits stand for. */
  function NumberOf(text: string): nat
    requires Digits(text)
  {
    if text == "" then 0 else 10 * NumberOf(text[..|text| - 1]) + (text[|text| - 1] as int - '0' as int)
  }

  lemma {:induction false} DecimalReadsBack(n: nat)
    ensures Digits(Decimal(n)) && NumberOf(Decimal(n)) == n
    ensures |Decimal(n)| > 0 && (Decimal(n)[0] == '0' ==> n == 0)
  {
    if n >= 10 {
      DecimalReadsBack(n / 10);
      DecimalReadsBack(n % 10);
      var text := Decimal(n);
      assert text[..|text| - 1] == Decimal(n / 10) && text[|text| - 1..] == Decimal(n % 10);
    } else {
      assert Decimal(n)[..0] == "";
    }
  }

  /** Ids generated for one service from different serial numbers differ. */
  lemma GeneratedIDsDiffer(service: string, m: nat, n: nat)
    requires NewInstanceID(service, m) == NewInstanceID(service, n)
    ensures m == n
  {
    DecimalReadsBack(m);
    DecimalReadsBack(n);
    var (a, b) := (NewInstanceID(service, m), NewInstanceID(service, n));
    assert a[|service| + 1..] == Decimal(m) && b[|service| + 1..] == Decimal(n);
  }

  /** Instances share an endpoint, and with it every consistent-hash score, only at one address and port. */
  lemma EndpointsDiffer(i: Instance, j: Instance)
    requires ValidAddress(i.address) && ValidAddress(j.address) && i.port >= 0 && j.port >= 0
    requires Endpoint(i) == Endpoint(j)
    ensures i.address == j.address && i.port == j.port
  {
    DecimalReadsBack(i.port);
    DecimalReadsBack(j.port);
    var text := Endpoint(i);
    assert text[|i.address|] == ':' && text[|j.address|] == ':';
    assert forall n :: 0 <= n < |i.address| ==> text[n] == i.address[n] && text[n] != ':';
    assert forall n :: 0 <= n < |j.address| ==> text[n] == j.address[n] && text[n] != ':';
    assert |i.address| == |j.address|;
    assert text[..|i.address|] == i.address && text[..|j.address|] == j.address;
    assert text[|i.address| + 1..] == Decimal(i.port) && text[|j.address| + 1..] == Decimal(j.port);
  }

  // ------------------------------------------------------------------------ keys

  lemma ResourceHeads()
    ensures Head(NamespaceK("")) == "/etcdisc/namespaces/"
    ensures Head(InstanceK("", "", "")) == "/etcdisc/instances/"
    ensures Head(CardK("", "")) == "/etcdisc/agentcards/"
    ensures Head(CapabilityK("", "", "")) == "/etcdisc/capabilities/"
    ensures Head(AuditK("")) == "/etcdisc/audit/"
  {
  }

  lemma GlobalHead()
    ensures Head(GlobalConfigK("")) == "/etcdisc/config/global/"
  {
  }

  lemma NamespaceHead()
    ensures Head(NamespaceConfigK("", "")) == "/etcdisc/config/namespaces/"
  {
  }

  lemma ServiceHead()
    ensures Head(ServiceConfigK("", "", "")) == "/etcdisc/config/services/"
  {
  }

  lemma SameHeads(k: Key, k': Key)
    requires SameFamily(k, k')
    ensures Head(k) == Head(k')
  {
    hide NamespacePrefix, InstanceRootPrefix, ConfigPrefix, AuditPrefix, ROOT;
  }

  /** The layout in full, as operators and the etcd adapter see it: a literal head and the parts between slashes. */
  lemma KeysAreLaidOut(k: Key)
    ensures Render(k) ==
            match k
            case NamespaceK(ns) => "/etcdisc/namespaces/" + Join([ns])
            case InstanceK(ns, service, id) => "/etcdisc/instances/" + Join([ns, service, id])
            case GlobalConfigK(key) => "/etcdisc/config/global/" + Join([key])
            case NamespaceConfigK(ns, key) => "/etcdisc/config/namespaces/" + Join([ns, key])
            case ServiceConfigK(ns, service, key) => "/etcdisc/config/services/" + Join([ns, service, key])
            case CardK(ns, agent) => "/etcdisc/agentcards/" + Join([ns, agent])
            case CapabilityK(ns, capability, agent) => "/etcdisc/capabilities/" + Join([ns, capability, agent])
            case AuditK(id) => "/etcdisc/audit/" + Join([id])
  {
    hide Render, Join, Head;
    RenderShape(k);
    ResourceHeads();
    GlobalHead();
    NamespaceHead();
    ServiceHead();
    SameHeads(k, match k
                 case NamespaceK(_) => NamespaceK("")
                 case InstanceK(_, _, _) => InstanceK("", "", "")
                 case GlobalConfigK(_) => GlobalConfigK("")
                 case NamespaceConfigK(_, _) => NamespaceConfigK("", "")
                 case ServiceConfigK(_, _, _) => ServiceConfigK("", "", "")
                 case CardK(_, _) => CardK("", "")
                 case CapabilityK(_, _, _) => CapabilityK("", "", "")
                 case AuditK(_) => AuditK(""));
  }
}
