/** The in-memory router (data/KeeneticRepository.kt, `FakeKeeneticRepository`): a table of
    policies and a table of clients, the latter changed in place by the apply, clear and register
    calls. */
module Repository {
  import opened Prelude
  import opened Text
  import opened Models
  import opened ClientLists

  const ClientNotFound := "Клиент не найден"
  const MacTaken := "MAC уже зарегистрирован"
  const CredentialsMissing := "Введите домен, логин и пароль"

  /** `normalizeDomain`: the trimmed input, with "https://" put in front unless it already
      starts with "http". */
  function NormalizeDomain(input: string): (r: string)
    ensures StartsWith(r, "http")
    ensures StartsWith(Trim(input), "http") ==> r == Trim(input)
    ensures !StartsWith(Trim(input), "http") ==> r == "https://" + Trim(input)
  {
    var trimmed := Trim(input);
    if StartsWith(trimmed, "http") then trimmed
    else
      SecureSchemeIsHttp();
      StartsWithAppend("https://", trimmed, "http");
      "https://" + trimmed
  }

  lemma SecureSchemeIsHttp()
    ensures StartsWith("https://", "http")
  {
  }

  /** Putting the scheme in front of a trimmed address leaves it trimmed. */
  lemma SchemedAddressIsTrimmed(t: string)
    requires Trim(t) == t
    ensures Trim("https://" + t) == "https://" + t
  {
    var r := "https://" + t;
    assert r[0] == 'h';
    if t != [] {
      assert r[|r| - 1] == t[|t| - 1];
    } else {
      assert r[|r| - 1] == '/';
    }
    TrimOfTrimmed(r);
  }

  /** A normalised address is its own normalisation. */
  lemma NormalizeDomainIdempotent(input: string)
    ensures NormalizeDomain(NormalizeDomain(input)) == NormalizeDomain(input)
  {
    var trimmed := Trim(input);
    TrimIdempotent(input);
    if !StartsWith(trimmed, "http") {
      SchemedAddressIsTrimmed(trimmed);
    }
  }

  /** No two clients have MAC addresses equal ignoring case. */
  predicate MacsDistinct(cs: seq<Client>) {
    forall i, j :: 0 <= i < j < |cs| ==> !EqualsIgnoreCase(cs[i].mac, cs[j].mac)
  }

  /** A second list with the same MACs, position by position, keeps them distinct. */
  lemma SameMacsStayDistinct(cs: seq<Client>, ds: seq<Client>)
    requires MacsDistinct(cs) && |ds| == |cs|
    requires forall i :: 0 <= i < |cs| ==> ds[i].mac == cs[i].mac
    ensures MacsDistinct(ds)
  {
  }

  const SeedPolicies := [
    Policy("conform", "Conform", "Дефолтный профиль Keenetic"),
    Policy("office", "Office", ""),
    Policy("kids", "Kids", ""),
    Policy("vpn", "WireGuard VPN", ""),
    Policy("guest", "Guest", "")
  ]

  const SeedClients := [
    Client("c1", "Ноутбук Макс", "AA:BB:CC:DD:EE:01", Some("192.168.10.20"), Some("office"), true, None, None, false),
    Client("c2", "Планшет", "AA:BB:CC:DD:EE:02", Some("192.168.10.30"), None, false, None, None, true),
    Client("c3", "Smart TV", "AA:BB:CC:DD:EE:03", Some("192.168.10.40"), Some("vpn"), true, None, None, false),
    Client("c4", "Смартфон Ани", "AA:BB:CC:DD:EE:04", Some("192.168.10.50"), Some("kids"), true, None, None, false),
    Client("c5", "Printer", "AA:BB:CC:DD:EE:05", Some("192.168.10.60"), None, true, None, None, false)
  ]

  /** The seeded clients have distinct MACs: they differ in their last digit. */
  lemma SeedMacsDistinct()
    ensures MacsDistinct(SeedClients)
  {
    forall i, j | 0 <= i < j < |SeedClients|
      ensures !EqualsIgnoreCase(SeedClients[i].mac, SeedClients[j].mac)
    {
      assert Upper(SeedClients[i].mac)[16] == SeedClients[i].mac[16];
      assert Upper(SeedClients[j].mac)[16] == SeedClients[j].mac[16];
    }
  }

  class FakeKeeneticRepository {
    var policies: seq<Policy>
    var clients: seq<Client>

    /** The store's invariant: MACs are distinct ignoring case. */
    predicate Valid()
      reads this
    {
      MacsDistinct(clients)
    }

    constructor()
      ensures policies == SeedPolicies && clients == SeedClients
      ensures Valid()
    {
      policies := SeedPolicies;
      clients := SeedClients;
      SeedMacsDistinct();
    }

    /** `verifyConnection`: succeeds exactly when domain, login and password are filled in, with
        the normalised address; the store itself is not touched. */
    method VerifyConnection(credentials: Credentials) returns (r: Result<string>)
      ensures r.Success? <==> credentials.IsComplete()
      ensures r.Success? ==> r.value == NormalizeDomain(credentials.domainOrIp)
      ensures r.Failure? ==> r.message == Some(CredentialsMissing)
    {
      if !IsBlank(credentials.domainOrIp) && !IsBlank(credentials.username) && !IsBlank(credentials.password) {
        r := Success(NormalizeDomain(credentials.domainOrIp));
      } else {
        r := Failure(Some(CredentialsMissing));
      }
    }

    /** `fetchPolicies`: a copy of the policy table. */
    method FetchPolicies() returns (r: seq<Policy>)
      ensures r == policies
    {
      r := policies;
    }

    /** `fetchClients`: a copy of the client table. */
    method FetchClients() returns (r: seq<Client>)
      ensures r == clients
    {
      r := clients;
    }

    /** `applyPolicyToClient`: an unknown id fails and changes nothing; otherwise only the first
        client with that id gets the policy and is marked registered, and that client is
        returned. */
    method ApplyPolicyToClient(clientId: string, policyId: string) returns (r: Result<Client>)
      requires Valid()
      modifies this
      ensures Valid() && policies == old(policies)
      ensures IndexOfId(old(clients), clientId).None? ==>
        r == Failure(Some(ClientNotFound)) && clients == old(clients)
      ensures IndexOfId(old(clients), clientId).Some? ==>
        var i := IndexOfId(old(clients), clientId).value;
        clients == old(clients)[i := old(clients)[i].Assigned(policyId)] && r == Success(clients[i])
    {
      var index := IndexOfId(clients, clientId);
      if index.None? {
        r := Failure(Some(ClientNotFound));
      } else {
        var updated := clients[index.value].Assigned(policyId);
        clients := clients[index.value := updated];
        r := Success(updated);
        SameMacsStayDistinct(old(clients), clients);
      }
    }

    /** `clearPolicyForClient`: the same shape, but only the policy is removed; the registered
        flag and every other field are kept. */
    method ClearPolicyForClient(clientId: string) returns (r: Result<Client>)
      requires Valid()
      modifies this
      ensures Valid() && policies == old(policies)
      ensures IndexOfId(old(clients), clientId).None? ==>
        r == Failure(Some(ClientNotFound)) && clients == old(clients)
      ensures IndexOfId(old(clients), clientId).Some? ==>
        var i := IndexOfId(old(clients), clientId).value;
        clients == old(clients)[i := old(clients)[i].Cleared()] && r == Success(clients[i])
    {
      var index := IndexOfId(clients, clientId);
      if index.None? {
        r := Failure(Some(ClientNotFound));
      } else {
        var updated := clients[index.value].Cleared();
        clients := clients[index.value := updated];
        r := Success(updated);
        SameMacsStayDistinct(old(clients), clients);
      }
    }

    /** `applyPolicyToAll`: always succeeds, with the updated table. */
    method ApplyPolicyToAll(policyId: string) returns (r: Result<seq<Client>>)
      requires Valid()
      modifies this
      ensures Valid() && policies == old(policies)
      ensures clients == AssignAll(old(clients), policyId) && r == Success(clients)
    {
      clients := AssignAll(clients, policyId);
      SameMacsStayDistinct(old(clients), clients);
      r := Success(clients);
    }

    /** `clearPolicyFromAll`: always succeeds, with the updated table. */
    method ClearPolicyFromAll(policyId: Option<string>) returns (r: Result<seq<Client>>)
      requires Valid()
      modifies this
      ensures Valid() && policies == old(policies)
      ensures clients == ClearMatching(old(clients), policyId) && r == Success(clients)
    {
      clients := ClearMatching(clients, policyId);
      SameMacsStayDistinct(old(clients), clients);
      r := Success(clients);
    }

    /** `registerClient`: a MAC equal ignoring case to one already present fails and changes
        nothing; otherwise one new registered client without a policy, with the MAC upper-cased
        and the given id, is appended and returned. */
    method RegisterClient(name: string, mac: string, ip: Option<string>, notes: Option<string>, freshId: string)
      returns (r: Result<Client>)
      requires Valid()
      modifies this
      ensures Valid() && policies == old(policies)
      ensures (exists i :: 0 <= i < |old(clients)| && EqualsIgnoreCase(old(clients)[i].mac, mac)) ==>
        r == Failure(Some(MacTaken)) && clients == old(clients)
      ensures (forall i :: 0 <= i < |old(clients)| ==> !EqualsIgnoreCase(old(clients)[i].mac, mac)) ==>
        r == Success(Client(freshId, name, Upper(mac), ip, None, true, None, notes, false)) &&
        clients == old(clients) + [r.value]
    {
      if exists i :: 0 <= i < |clients| && EqualsIgnoreCase(clients[i].mac, mac) {
        r := Failure(Some(MacTaken));
        return;
      }
      var client := Client(freshId, name, Upper(mac), ip, None, true, None, notes, false);
      forall i | 0 <= i < |clients| ensures !EqualsIgnoreCase(clients[i].mac, client.mac) {
        UpperKeepsIgnoreCaseClass(clients[i].mac, mac);
      }
      clients := clients + [client];
      r := Success(client);
    }
  }
}
