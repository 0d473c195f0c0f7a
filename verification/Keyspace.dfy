/** The string key layout, and the structured keys it stands for. */
module Keyspace {
  import opened Model

  const ROOT := "/etcdisc"

  function NamespaceKey(name: string): string {
    ROOT + "/namespaces/" + name
  }

  function NamespacePrefix(): string {
    ROOT + "/namespaces/"
  }

  function InstanceKey(namespace: string, service: string, instanceID: string): string {
    ROOT + "/instances/" + namespace + "/" + service + "/" + instanceID
  }

  function InstanceServicePrefix(namespace: string, service: string): string {
    ROOT + "/instances/" + namespace + "/" + service + "/"
  }

  function InstanceNamespacePrefix(namespace: string): string {
    ROOT + "/instances/" + namespace + "/"
  }

  function InstanceRootPrefix(): string {
    ROOT + "/instances/"
  }

  function ConfigKey(scope: Scope, namespace: string, service: string, key: string): string {
    match scope
    case GlobalScope => ROOT + "/config/global/" + key
    case NamespaceScope => ROOT + "/config/namespaces/" + namespace + "/" + key
    case _ => ROOT + "/config/services/" + namespace + "/" + service + "/" + key
  }

  function ConfigPrefix(scope: Scope, namespace: string, service: string): string {
    match scope
    case GlobalScope => ROOT + "/config/global/"
    case NamespaceScope => ROOT + "/config/namespaces/" + namespace + "/"
    case _ => ROOT + "/config/services/" + namespace + "/" + service + "/"
  }

  function ConfigRootPrefix(): string {
    ROOT + "/config/"
  }

  function AgentCardKey(namespace: string, agentID: string): string {
    ROOT + "/agentcards/" + namespace + "/" + agentID
  }

  function AgentCardNamespacePrefix(namespace: string): string {
    ROOT + "/agentcards/" + namespace + "/"
  }

  function CapabilityKey(namespace: string, capability: string, agentID: string): string {
    ROOT + "/capabilities/" + namespace + "/" + capability + "/" + agentID
  }

  function CapabilityPrefix(namespace: string, capability: string): string {
    ROOT + "/capabilities/" + namespace + "/" + capability + "/"
  }

  function AuditKey(id: string): string {
    ROOT + "/audit/" + id
  }

  function AuditPrefix(): string {
    ROOT + "/audit/"
  }

  function ResourceFromKey(key: string): string {
    if NamespacePrefix() <= key then "namespace"
    else if InstanceRootPrefix() <= key then "instance"
    else if ConfigRootPrefix() <= key then "config"
    else if ROOT + "/agentcards/" <= key then "agentcard"
    else if ROOT + "/capabilities/" <= key then "capability"
    else if AuditPrefix() <= key then "audit"
    else "unknown"
  }

  // -------------------------------------------------------- structured keys

  datatype Key =
    | NamespaceK(ns: string)
    | InstanceK(ns: string, service: string, id: string)
    | GlobalConfigK(key: string)
    | NamespaceConfigK(ns: string, key: string)
    | ServiceConfigK(ns: string, service: string, key: string)
    | CardK(ns: string, agent: string)
    | CapabilityK(ns: string, capability: string, agent: string)
    | AuditK(id: string)

  /** Key components in the shape the validators accept; audit ids are generated without slashes. */
  predicate ValidKey(k: Key) {
    match k
    case NamespaceK(ns) => ValidName(ns)
    case InstanceK(ns, service, id) => ValidName(ns) && ValidName(service) && ValidInstanceID(id)
    case GlobalConfigK(key) => ValidConfigKey(key)
    case NamespaceConfigK(ns, key) => ValidName(ns) && ValidConfigKey(key)
    case ServiceConfigK(ns, service, key) => ValidName(ns) && ValidName(service) && ValidConfigKey(key)
    case CardK(ns, agent) => ValidName(ns) && ValidInstanceID(agent)
    case CapabilityK(ns, capability, agent) => ValidName(ns) && ValidCapability(capability) && ValidInstanceID(agent)
    case AuditK(id) => SlashFree(id)
  }

  function ConfigKeyOf(scope: Scope, namespace: string, service: string, key: string): Key {
    match scope
    case GlobalScope => GlobalConfigK(key)
    case NamespaceScope => NamespaceConfigK(namespace, key)
    case _ => ServiceConfigK(namespace, service, key)
  }

  function Render(k: Key): string {
    match k
    case NamespaceK(ns) => NamespaceKey(ns)
    case InstanceK(ns, service, id) => InstanceKey(ns, service, id)
    case GlobalConfigK(key) => ConfigKey(GlobalScope, "", "", key)
    case NamespaceConfigK(ns, key) => ConfigKey(NamespaceScope, ns, "", key)
    case ServiceConfigK(ns, service, key) => ConfigKey(ServiceScope, ns, service, key)
    case CardK(ns, agent) => AgentCardKey(ns, agent)
    case CapabilityK(ns, capability, agent) => CapabilityKey(ns, capability, agent)
    case AuditK(id) => AuditKey(id)
  }

  lemma RenderConfigKey(scope: Scope, namespace: string, service: string, key: string)
    ensures Render(ConfigKeyOf(scope, namespace, service, key)) == ConfigKey(scope, namespace, service, key)
  {
  }

  /** The namespace a key belongs to; global configuration and audit records belong to none. */
  function Owner(k: Key): string {
    match k
    case GlobalConfigK(_) => ""
    case AuditK(_) => ""
    case _ => k.ns
  }

  // ------------------------------------------------- paths made of segments

  predicate SlashFree(s: string) {
    '/' !in s
  }

  predicate AllSlashFree(segs: seq<string>) {
    forall i :: 0 <= i < |segs| ==> SlashFree(segs[i])
  }

  function Slashes(s: string): nat {
    if s == "" then 0 else (if s[0] == '/' then 1 else 0) + Slashes(s[1..])
  }

  function Join(segs: seq<string>): string
    requires |segs| > 0
  {
    if |segs| == 1 then segs[0] else segs[0] + "/" + Join(segs[1..])
  }

  lemma {:induction false} SlashesOfConcat(a: string, b: string)
    ensures Slashes(a + b) == Slashes(a) + Slashes(b)
  {
    if a == "" {
      assert a + b == b;
    } else {
      assert (a + b)[1..] == a[1..] + b;
      SlashesOfConcat(a[1..], b);
    }
  }

  lemma {:induction false} SlashFreeMeansNoSlashes(s: string)
    ensures SlashFree(s) <==> Slashes(s) == 0
  {
    if s != "" {
      assert s == [s[0]] + s[1..];
      SlashFreeMeansNoSlashes(s[1..]);
    }
  }

  lemma {:induction false} SlashesOfJoin(segs: seq<string>)
    requires |segs| > 0
    ensures Slashes(Join(segs)) >= |segs| - 1
    ensures Slashes(Join(segs)) == |segs| - 1 <==> AllSlashFree(segs)
  {
    SlashFreeMeansNoSlashes(segs[0]);
    if |segs| > 1 {
      SlashesOfJoin(segs[1..]);
      SlashesOfConcat(segs[0] + "/", Join(segs[1..]));
      SlashesOfConcat(segs[0], "/");
      assert Slashes("/") == 1;
      assert AllSlashFree(segs) <==> SlashFree(segs[0]) && AllSlashFree(segs[1..]) by {
        assert segs == [segs[0]] + segs[1..];
      }
    }
  }

  /** A slash-free first segment is determined by the string it starts. */
  lemma FirstSegment(a: string, x: string, b: string, y: string)
    requires SlashFree(a) && SlashFree(b)
    requires a + "/" + x == b + "/" + y
    ensures a == b && x == y
  {
    var s := a + "/" + x;
    assert s[|a|] == '/' && s[|b|] == '/';
    assert forall i :: 0 <= i < |a| ==> s[i] == a[i] && a[i] != '/';
    assert forall i :: 0 <= i < |b| ==> s[i] == (b + "/" + y)[i] == b[i] && b[i] != '/';
    assert |a| == |b|;
    assert a == s[..|a|] && b == s[..|b|];
    assert x == s[|a| + 1..] && y == s[|b| + 1..];
  }

  lemma {:induction false} JoinIsInjectiveOnSlashFree(a: seq<string>, b: seq<string>)
    requires |a| == |b| > 0 && AllSlashFree(a) && AllSlashFree(b)
    requires Join(a) == Join(b)
    ensures a == b
  {
    if |a| == 1 {
      assert a == [a[0]] && b == [b[0]];
    } else {
      FirstSegment(a[0], Join(a[1..]), b[0], Join(b[1..]));
      JoinIsInjectiveOnSlashFree(a[1..], b[1..]);
      assert a == [a[0]] + a[1..] && b == [b[0]] + b[1..];
    }
  }

  /** Only one of the two paths needs slash-free segments: the slashes can be counted. */
  lemma JoinIsInjective(a: seq<string>, b: seq<string>)
    requires |a| == |b| > 0 && AllSlashFree(b)
    requires Join(a) == Join(b)
    ensures a == b
  {
    SlashesOfJoin(a);
    SlashesOfJoin(b);
    JoinIsInjectiveOnSlashFree(a, b);
  }

  lemma {:induction false} PathStartsWith(pre: seq<string>, segs: seq<string>)
    requires 0 < |pre| < |segs| && AllSlashFree(pre) && AllSlashFree(segs)
    ensures Join(pre) + "/" <= Join(segs) <==> pre == segs[..|pre|]
  {
    var rest := Join(segs[1..]);
    assert Join(segs) == segs[0] + "/" + rest;
    if |pre| == 1 {
      assert Join(pre) == pre[0];
      if pre[0] + "/" <= Join(segs) {
        var y := Join(segs)[|pre[0]| + 1..];
        assert Join(segs) == pre[0] + "/" + y;
        FirstSegment(pre[0], y, segs[0], rest);
      }
      assert segs[..1] == [segs[0]] && pre == [pre[0]];
    } else {
      PathStartsWith(pre[1..], segs[1..]);
      var tail := Join(pre[1..]) + "/";
      assert Join(pre) + "/" == pre[0] + "/" + tail;
      if Join(pre) + "/" <= Join(segs) {
        var y := Join(segs)[|Join(pre)| + 1..];
        assert Join(segs) == pre[0] + "/" + tail + y;
        assert Join(segs) == pre[0] + "/" + (tail + y);
        FirstSegment(pre[0], tail + y, segs[0], rest);
        assert tail <= rest;
      }
      assert pre == [pre[0]] + pre[1..];
      assert segs[..|pre|] == [segs[0]] + segs[1..][..|pre| - 1];
    }
  }

  /** A prefix one segment short fixes its segments whatever they contain. */
  lemma PathStartsWithAllButLast(pre: seq<string>, segs: seq<string>)
    requires 0 < |pre| && |segs| == |pre| + 1 && AllSlashFree(segs)
    ensures Join(pre) + "/" <= Join(segs) <==> pre == segs[..|pre|]
  {
    if Join(pre) + "/" <= Join(segs) {
      var y := Join(segs)[|Join(pre)| + 1..];
      assert Join(segs) == Join(pre) + "/" + y;
      SlashesOfConcat(Join(pre) + "/", y);
      SlashesOfConcat(Join(pre), "/");
      assert Slashes("/") == 1;
      SlashesOfJoin(pre);
      SlashesOfJoin(segs);
    }
    if AllSlashFree(pre) {
      PathStartsWith(pre, segs);
    } else {
      assert pre != segs[..|pre|];
    }
  }

  // ------------------------------------------------- the layout, and its exactness

  /** The eight literal heads of the layout. */
  function Head(k: Key): string {
    match k
    case NamespaceK(_) => NamespacePrefix()
    case InstanceK(_, _, _) => InstanceRootPrefix()
    case GlobalConfigK(_) => ConfigPrefix(GlobalScope, "", "")
    case NamespaceConfigK(_, _) => ROOT + "/config/namespaces/"
    case ServiceConfigK(_, _, _) => ROOT + "/config/services/"
    case CardK(_, _) => ROOT + "/agentcards/"
    case CapabilityK(_, _, _) => ROOT + "/capabilities/"
    case AuditK(_) => AuditPrefix()
  }

  function Segments(k: Key): seq<string> {
    match k
    case NamespaceK(ns) => [ns]
    case InstanceK(ns, service, id) => [ns, service, id]
    case GlobalConfigK(key) => [key]
    case NamespaceConfigK(ns, key) => [ns, key]
    case ServiceConfigK(ns, service, key) => [ns, service, key]
    case CardK(ns, agent) => [ns, agent]
    case CapabilityK(ns, capability, agent) => [ns, capability, agent]
    case AuditK(id) => [id]
  }

  predicate SameFamily(k: Key, k': Key) {
    match k
    case NamespaceK(_) => k'.NamespaceK?
    case InstanceK(_, _, _) => k'.InstanceK?
    case GlobalConfigK(_) => k'.GlobalConfigK?
    case NamespaceConfigK(_, _) => k'.NamespaceConfigK?
    case ServiceConfigK(_, _, _) => k'.ServiceConfigK?
    case CardK(_, _) => k'.CardK?
    case CapabilityK(_, _, _) => k'.CapabilityK?
    case AuditK(_) => k'.AuditK?
  }

  lemma JoinOfTwo(a: string, b: string)
    ensures Join([a]) == a
    ensures Join([a, b]) == a + "/" + b
  {
    assert [a, b][1..] == [b];
  }

  lemma JoinOfThree(a: string, b: string, c: string)
    ensures Join([a, b, c]) == a + "/" + (b + "/" + c)
  {
    assert [a, b, c][1..] == [b, c];
    JoinOfTwo(b, c);
  }

  lemma Regroup(h: string, a: string, b: string, c: string)
    ensures h + a + "/" + b == h + (a + "/" + b)
    ensures h + a + "/" + b + "/" + c == h + (a + "/" + (b + "/" + c))
    ensures h + a + "/" == h + (a + "/")
    ensures h + a + "/" + b + "/" == h + (a + "/" + b + "/")
  {
    assert h + a + "/" + b == h + (a + "/" + b);
    assert h + a + "/" + b + "/" + c == (h + a + "/" + b) + ("/" + c);
    assert (a + "/" + b) + ("/" + c) == a + "/" + (b + "/" + c);
  }

  lemma RenderShape(k: Key)
    ensures Render(k) == Head(k) + Join(Segments(k))
  {
    match k
    case NamespaceK(ns) => JoinOfTwo(ns, "");
    case InstanceK(ns, service, id) =>
      JoinOfThree(ns, service, id);
      Regroup(InstanceRootPrefix(), ns, service, id);
    case GlobalConfigK(key) => JoinOfTwo(key, "");
    case NamespaceConfigK(ns, key) =>
      JoinOfTwo(ns, key);
      Regroup(ROOT + "/config/namespaces/", ns, key, "");
    case ServiceConfigK(ns, service, key) =>
      JoinOfThree(ns, service, key);
      Regroup(ROOT + "/config/services/", ns, service, key);
    case CardK(ns, agent) =>
      JoinOfTwo(ns, agent);
      Regroup(ROOT + "/agentcards/", ns, agent, "");
    case CapabilityK(ns, capability, agent) =>
      JoinOfThree(ns, capability, agent);
      Regroup(ROOT + "/capabilities/", ns, capability, agent);
    case AuditK(id) => JoinOfTwo(id, "");
  }

  /** The letters after "/etcdisc/" and after "/etcdisc/config/" tell the heads apart. */
  function Initials(k: Key): (char, char, char) {
    match k
    case NamespaceK(_) => ('n', 'a', '_')
    case InstanceK(_, _, _) => ('i', 'n', '_')
    case GlobalConfigK(_) => ('c', 'o', 'g')
    case NamespaceConfigK(_, _) => ('c', 'o', 'n')
    case ServiceConfigK(_, _, _) => ('c', 'o', 's')
    case CardK(_, _) => ('a', 'g', '_')
    case CapabilityK(_, _, _) => ('c', 'a', '_')
    case AuditK(_) => ('a', 'u', '_')
  }

  lemma HeadInitials(k: Key)
    ensures |Head(k)| > 10 && Head(k)[9] == Initials(k).0 && Head(k)[10] == Initials(k).1
    ensures Initials(k).1 == 'o' ==> |Head(k)| > 16 && Head(k)[16] == Initials(k).2
  {
  }

  /** No head is a prefix of a string that starts with another head. */
  lemma HeadsDiffer(k: Key, k': Key, s: string)
    requires Head(k) <= s && Head(k') <= s
    ensures SameFamily(k, k')
  {
    hide Head;
    HeadInitials(k);
    HeadInitials(k');
    assert s[9] == Head(k)[9] == Head(k')[9];
    assert s[10] == Head(k)[10] == Head(k')[10];
    if Initials(k).1 == 'o' {
      assert s[16] == Head(k)[16] == Head(k')[16];
    }
  }

  lemma ValidKeysAreSlashFree(k: Key)
    requires ValidKey(k)
    ensures AllSlashFree(Segments(k))
  {
  }

  lemma SegmentsDetermineKey(k: Key, k': Key)
    requires SameFamily(k, k') && Segments(k) == Segments(k')
    ensures k == k'
  {
    var s, t := Segments(k), Segments(k');
    assert s[0] == t[0];
    assert |s| > 1 ==> s[1] == t[1];
    assert |s| > 2 ==> s[2] == t[2];
  }

  /** The builders are injective and their families disjoint, even when only one key is well formed. */
  lemma RenderIsInjective(k: Key, k': Key)
    requires ValidKey(k')
    requires Render(k) == Render(k')
    ensures k == k'
  {
    RenderShape(k);
    RenderShape(k');
    HeadsDiffer(k, k', Render(k));
    ValidKeysAreSlashFree(k');
    assert Join(Segments(k)) == Render(k)[|Head(k)|..];
    JoinIsInjective(Segments(k), Segments(k'));
    SegmentsDetermineKey(k, k');
  }

  predicate IsConfigKey(k: Key) {
    k.GlobalConfigK? || k.NamespaceConfigK? || k.ServiceConfigK?
  }

  lemma StartsWithHead(k: Key, like: Key)
    ensures Head(like) <= Render(k) <==> SameFamily(like, k)
  {
    hide Render, Head;
    RenderShape(k);
    if SameFamily(like, k) {
      SameHead(like, k);
    } else if Head(like) <= Render(k) {
      HeadsDiffer(like, k, Render(k));
    }
  }

  lemma SameHead(like: Key, k: Key)
    requires SameFamily(like, k)
    ensures Head(like) == Head(k)
  {
  }

  lemma ConfigRootInitials()
    ensures |ConfigRootPrefix()| > 10 && ConfigRootPrefix()[9] == 'c' && ConfigRootPrefix()[10] == 'o'
  {
  }

  lemma ConfigHeadsExtendRoot(k: Key)
    requires IsConfigKey(k)
    ensures ConfigRootPrefix() <= Head(k)
  {
    match k
    case GlobalConfigK(_) => assert Head(k) == ConfigRootPrefix() + "global/";
    case NamespaceConfigK(_, _) => assert Head(k) == ConfigRootPrefix() + "namespaces/";
    case ServiceConfigK(_, _, _) => assert Head(k) == ConfigRootPrefix() + "services/";
  }

  lemma StartsWithConfigRoot(k: Key)
    ensures ConfigRootPrefix() <= Render(k) <==> IsConfigKey(k)
  {
    hide Render, Head, ConfigRootPrefix;
    RenderShape(k);
    HeadInitials(k);
    ConfigRootInitials();
    assert Render(k)[9] == Head(k)[9] && Render(k)[10] == Head(k)[10];
    if IsConfigKey(k) {
      ConfigHeadsExtendRoot(k);
    }
  }

  /** The classifier returns the family whose builder made the key. */
  lemma ResourceOfRenderedKey(k: Key)
    ensures ResourceFromKey(Render(k)) ==
            match k
            case NamespaceK(_) => "namespace"
            case InstanceK(_, _, _) => "instance"
            case CardK(_, _) => "agentcard"
            case CapabilityK(_, _, _) => "capability"
            case AuditK(_) => "audit"
            case _ => "config"
  {
    StartsWithHead(k, NamespaceK(""));
    StartsWithHead(k, InstanceK("", "", ""));
    StartsWithHead(k, CardK("", ""));
    StartsWithHead(k, CapabilityK("", "", ""));
    StartsWithHead(k, AuditK(""));
    StartsWithConfigRoot(k);
    hide Render;
  }

  lemma PrefixUnderHead(h: string, p: string, t: string)
    ensures h + p <= h + t <==> p <= t
  {
    assert p == (h + p)[|h|..] && t == (h + t)[|h|..];
  }

  /** A listing prefix made of a head and some segments selects by family and by those segments. */
  lemma PrefixSelects(k: Key, like: Key, pre: seq<string>)
    requires ValidKey(k)
    requires 0 < |pre| < |Segments(like)|
    requires AllSlashFree(pre) || |pre| + 1 == |Segments(like)|
    ensures Head(like) + (Join(pre) + "/") <= Render(k) <==>
            SameFamily(like, k) && pre == Segments(k)[..|pre|]
  {
    hide Render, Head, Join;
    RenderShape(k);
    ValidKeysAreSlashFree(k);
    hide ValidKey;
    if SameFamily(like, k) {
      SameHead(like, k);
      PrefixUnderHead(Head(k), Join(pre) + "/", Join(Segments(k)));
      SegmentsSelect(pre, Segments(k));
    } else if Head(like) + (Join(pre) + "/") <= Render(k) {
      assert Head(like) <= Head(like) + (Join(pre) + "/");
      HeadsDiffer(like, k, Render(k));
    }
  }

  lemma SegmentsSelect(pre: seq<string>, segs: seq<string>)
    requires 0 < |pre| < |segs| && AllSlashFree(segs)
    requires AllSlashFree(pre) || |pre| + 1 == |segs|
    ensures Join(pre) + "/" <= Join(segs) <==> pre == segs[..|pre|]
  {
    if |pre| + 1 == |segs| {
      PathStartsWithAllButLast(pre, segs);
    } else {
      PathStartsWith(pre, segs);
    }
  }

  lemma PrefixShapes(ns: string, x: string)
    ensures InstanceServicePrefix(ns, x) == Head(InstanceK("", "", "")) + (Join([ns, x]) + "/")
    ensures InstanceNamespacePrefix(ns) == Head(InstanceK("", "", "")) + (Join([ns]) + "/")
    ensures ConfigPrefix(GlobalScope, "", "") == Head(GlobalConfigK(""))
    ensures ConfigPrefix(NamespaceScope, ns, "") == Head(NamespaceConfigK("", "")) + (Join([ns]) + "/")
    ensures ConfigPrefix(ServiceScope, ns, x) == Head(ServiceConfigK("", "", "")) + (Join([ns, x]) + "/")
    ensures AgentCardNamespacePrefix(ns) == Head(CardK("", "")) + (Join([ns]) + "/")
    ensures CapabilityPrefix(ns, x) == Head(CapabilityK("", "", "")) + (Join([ns, x]) + "/")
  {
    JoinOfTwo(ns, x);
    Regroup(InstanceRootPrefix(), ns, x, "");
    Regroup(ROOT + "/config/namespaces/", ns, "", "");
    Regroup(ROOT + "/config/services/", ns, x, "");
    Regroup(ROOT + "/agentcards/", ns, "", "");
    Regroup(ROOT + "/capabilities/", ns, x, "");
  }

  lemma FirstTwo(segs: seq<string>, a: string, b: string)
    requires |segs| > 2
    ensures [a] == segs[..1] <==> a == segs[0]
    ensures [a, b] == segs[..2] <==> a == segs[0] && b == segs[1]
  {
    assert [a][0] == a && [a, b][0] == a && [a, b][1] == b;
    assert segs[..2] == [segs[0], segs[1]] && segs[..1] == [segs[0]];
  }

  lemma InstancePrefixesAreExact(k: Key, ns: string, service: string)
    requires ValidKey(k)
    ensures InstanceServicePrefix(ns, service) <= Render(k) <==> k.InstanceK? && k.ns == ns && k.service == service
    ensures SlashFree(ns) ==> (InstanceNamespacePrefix(ns) <= Render(k) <==> k.InstanceK? && k.ns == ns)
  {
    hide Render, Head, Join, InstanceServicePrefix, InstanceNamespacePrefix;
    PrefixShapes(ns, service);
    PrefixSelects(k, InstanceK("", "", ""), [ns, service]);
    if SlashFree(ns) {
      PrefixSelects(k, InstanceK("", "", ""), [ns]);
    }
    if k.InstanceK? {
      FirstTwo(Segments(k), ns, service);
    }
  }

  lemma ConfigPrefixesAreExact(k: Key, ns: string, service: string)
    requires ValidKey(k)
    ensures ConfigPrefix(GlobalScope, "", "") <= Render(k) <==> k.GlobalConfigK?
    ensures ConfigPrefix(NamespaceScope, ns, "") <= Render(k) <==> k.NamespaceConfigK? && k.ns == ns
    ensures ConfigPrefix(ServiceScope, ns, service) <= Render(k) <==>
            k.ServiceConfigK? && k.ns == ns && k.service == service
  {
    hide Render, Head, Join, ConfigPrefix;
    PrefixShapes(ns, service);
    StartsWithHead(k, GlobalConfigK(""));
    PrefixSelects(k, NamespaceConfigK("", ""), [ns]);
    PrefixSelects(k, ServiceConfigK("", "", ""), [ns, service]);
    if k.NamespaceConfigK? {
      FirstTwo(Segments(k) + [""], ns, "");
      assert Segments(k)[..1] == (Segments(k) + [""])[..1];
    } else if k.ServiceConfigK? {
      FirstTwo(Segments(k), ns, service);
    }
  }

  lemma CardAndCapabilityPrefixesAreExact(k: Key, ns: string, capability: string)
    requires ValidKey(k)
    ensures AgentCardNamespacePrefix(ns) <= Render(k) <==> k.CardK? && k.ns == ns
    ensures CapabilityPrefix(ns, capability) <= Render(k) <==>
            k.CapabilityK? && k.ns == ns && k.capability == capability
  {
    hide Render, Head, Join, AgentCardNamespacePrefix, CapabilityPrefix;
    PrefixShapes(ns, capability);
    PrefixSelects(k, CardK("", ""), [ns]);
    PrefixSelects(k, CapabilityK("", "", ""), [ns, capability]);
    if k.CardK? {
      FirstTwo(Segments(k) + [""], ns, "");
      assert Segments(k)[..1] == (Segments(k) + [""])[..1];
    } else if k.CapabilityK? {
      FirstTwo(Segments(k), ns, capability);
    }
  }
}
