/**
  The URLs an agent is served under inside the cluster.
 */
module AgentUrls {
  import opened Api

  function Digit(d: int): char
    requires 0 <= d < 10
  {
    '0' + d as char
  }

  function Decimal(n: nat): string {
    if n < 10 then [Digit(n)] else Decimal(n / 10) + [Digit(n % 10)]
  }

  function DecimalInt(n: int): string {
    if n < 0 then "-" + Decimal(-n) else Decimal(n)
  }

  predicate HasA2A(spec: AgentSpec) {
    exists p <- spec.protocols :: p.kind == A2A
  }

  function FirstA2A(protocols: seq<Protocol>): Option<Protocol> {
    if protocols == [] then None
    else if protocols[0].kind == A2A then Some(protocols[0])
    else FirstA2A(protocols[1..])
  }

  function RpcUrl(k: Key, spec: AgentSpec): string {
    match FirstA2A(spec.protocols)
    case None => ""
    case Some(p) => "http://" + k.name + "." + k.namespace + ".svc.cluster.local:" + DecimalInt(p.port) + p.path
  }

  const AGENT_CARD_ENDPOINT: string := "/.well-known/agent-card.json"

  function CardUrl(k: Key, spec: AgentSpec): string {
    if RpcUrl(k, spec) == "" then "" else RpcUrl(k, spec) + AGENT_CARD_ENDPOINT
  }

  lemma {:induction false} FirstA2AFinds(protocols: seq<Protocol>)
    ensures FirstA2A(protocols).Some? <==> exists p <- protocols :: p.kind == A2A
  {
    if protocols != [] {
      FirstA2AFinds(protocols[1..]);
      assert protocols == [protocols[0]] + protocols[1..];
    }
  }

  /** An agent has a card URL exactly when it speaks A2A. */
  lemma CardUrlIffA2A(k: Key, spec: AgentSpec)
    ensures CardUrl(k, spec) != "" <==> HasA2A(spec)
    ensures RpcUrl(k, spec) != "" <==> HasA2A(spec)
  {
    FirstA2AFinds(spec.protocols);
    if FirstA2A(spec.protocols).Some? {
      assert |RpcUrl(k, spec)| >= 7;
    }
  }

  // ---------------------------------------------------------------- what the URLs address

  /** The first protocol that speaks A2A. */
  predicate IsFirstA2A(protocols: seq<Protocol>, i: int) {
    0 <= i < |protocols| && protocols[i].kind == "A2A" && forall j :: 0 <= j < i ==> protocols[j].kind != "A2A"
  }

  /** Digits without a leading zero. */
  predicate IsNumeral(s: string) {
    s != "" && (forall c <- s :: '0' <= c <= '9') && (s[0] == '0' ==> |s| == 1)
  }

  /** The number that digits are read as. */
  function Reading(s: string): int {
    if s == "" then 0 else 10 * Reading(s[..|s| - 1]) + (s[|s| - 1] as int - '0' as int)
  }

  predicate Writes(s: string, n: int) {
    if n >= 0 then IsNumeral(s) && Reading(s) == n
    else s != "" && s[0] == '-' && IsNumeral(s[1..]) && Reading(s[1..]) == -n
  }

  lemma {:induction false} DecimalReadsBack(n: nat)
    ensures IsNumeral(Decimal(n)) && Reading(Decimal(n)) == n
    ensures n > 0 ==> Decimal(n)[0] != '0'
  {
    if n < 10 {
      assert [Digit(n)][..0] == "";
    } else {
      DecimalReadsBack(n / 10);
      assert Decimal(n)[..|Decimal(n)| - 1] == Decimal(n / 10);
      assert Decimal(n)[0] == Decimal(n / 10)[0];
    }
  }

  /** What is written for a number, negative ones included, reads back as it. */
  lemma WrittenNumber(n: int)
    ensures Writes(DecimalInt(n), n)
  {
    if n < 0 {
      DecimalReadsBack(-n);
      assert ("-" + Decimal(-n))[1..] == Decimal(-n);
    } else {
      DecimalReadsBack(n);
    }
  }

  /** The URL of a path on a port of the Service of that name in that namespace. */
  ghost predicate Addresses(url: string, k: Key, port: int, path: string) {
    exists digits: string :: Writes(digits, port)
                             && url == "http://" + k.name + "." + k.namespace + ".svc.cluster.local:" + digits + path
  }

  /** The RPC URL addresses the first A2A protocol, and the card URL its card; without one both are empty. */
  lemma UrlsAddressTheFirstA2A(k: Key, spec: AgentSpec)
    ensures forall i :: IsFirstA2A(spec.protocols, i) ==>
              && Addresses(RpcUrl(k, spec), k, spec.protocols[i].port, spec.protocols[i].path)
              && Addresses(CardUrl(k, spec), k, spec.protocols[i].port, spec.protocols[i].path + "/.well-known/agent-card.json")
    ensures (forall i :: !IsFirstA2A(spec.protocols, i)) ==> RpcUrl(k, spec) == "" && CardUrl(k, spec) == ""
  {
    FirstA2AIsFirst(spec.protocols);
    forall i | IsFirstA2A(spec.protocols, i)
      ensures Addresses(RpcUrl(k, spec), k, spec.protocols[i].port, spec.protocols[i].path)
      ensures Addresses(CardUrl(k, spec), k, spec.protocols[i].port, spec.protocols[i].path + "/.well-known/agent-card.json")
    {
      var p := spec.protocols[i];
      var digits := DecimalInt(p.port);
      WrittenNumber(p.port);
      assert RpcUrl(k, spec) == "http://" + k.name + "." + k.namespace + ".svc.cluster.local:" + digits + p.path;
      assert |RpcUrl(k, spec)| >= 7;
      assert CardUrl(k, spec) == "http://" + k.name + "." + k.namespace + ".svc.cluster.local:" + digits + (p.path + "/.well-known/agent-card.json");
    }
  }

  lemma {:induction false} FirstA2AIsFirst(protocols: seq<Protocol>)
    ensures forall i :: IsFirstA2A(protocols, i) ==> FirstA2A(protocols) == Some(protocols[i])
    ensures FirstA2A(protocols).Some? <==> exists i :: IsFirstA2A(protocols, i)
  {
    if protocols != [] {
      FirstA2AIsFirst(protocols[1..]);
      if protocols[0].kind == A2A {
        assert IsFirstA2A(protocols, 0);
      } else {
        forall i | IsFirstA2A(protocols, i)
          ensures i > 0 && IsFirstA2A(protocols[1..], i - 1)
        {
        }
        if i :| IsFirstA2A(protocols[1..], i) {
          assert IsFirstA2A(protocols, i + 1);
        }
      }
    }
  }
}
