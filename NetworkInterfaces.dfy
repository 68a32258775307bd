/**
 * The adapter registry: the operating system's list of network interfaces,
 * filtered to those whose link is up, and looked up by identifier. The
 * enumeration itself is a parameter `all`, in the operating system's order.
 */
module NetworkInterfaces {
  import opened Enumerable

  /** The operational states an interface can report. */
  datatype OperationalStatus = Up | Down | Testing | Unknown | Dormant | NotPresent | LowerLayerDown

  /** The two properties of an interface the registry reads. */
  datatype NetworkInterface = NetworkInterface(id: string, operationalStatus: OperationalStatus)

  predicate IsUp(nic: NetworkInterface)
  {
    nic.operationalStatus == Up
  }

  /** FetchOperational: the interfaces of `all` whose status is Up. */
  function FetchOperational(all: seq<NetworkInterface>): (r: seq<NetworkInterface>)
    ensures forall i :: 0 <= i < |r| ==> r[i].operationalStatus == Up
    ensures forall nic :: nic in r <==> nic in all && nic.operationalStatus == Up
  {
    Where(all, IsUp)
  }

  /**
   * FetchOperational is exactly the Up subset of the enumeration: each Up
   * interface as many times as the enumeration lists it, no other interface,
   * and in enumeration order.
   */
  lemma FetchOperationalIsUpSubset(all: seq<NetworkInterface>)
    ensures forall nic :: multiset(FetchOperational(all))[nic] ==
              if nic.operationalStatus == Up then multiset(all)[nic] else 0
    ensures IsSubsequence(FetchOperational(all), all)
  {
    forall nic
      ensures multiset(FetchOperational(all))[nic] ==
                if nic.operationalStatus == Up then multiset(all)[nic] else 0
    {
      WhereCounts(all, IsUp, nic);
    }
    WhereKeepsOrder(all, IsUp);
  }

  /** Fetch: the first interface of `all` with identifier `id`, or null. */
  function Fetch(all: seq<NetworkInterface>, id: string): (r: Option<NetworkInterface>)
    ensures r.Some? ==> r.value.id == id && r.value in all
    ensures r.None? <==> forall i :: 0 <= i < |all| ==> all[i].id != id
  {
    var matches := Where(all, (nic: NetworkInterface) => nic.id == id);
    assert forall i :: 0 <= i < |all| && all[i].id == id ==> all[i] in matches;
    FirstOrDefault(matches)
  }

  /** When several interfaces share the identifier, Fetch returns the earliest. */
  lemma FetchReturnsFirstMatch(all: seq<NetworkInterface>, id: string, i: nat)
    requires i < |all| && all[i].id == id
    requires forall j :: 0 <= j < i ==> all[j].id != id
    ensures Fetch(all, id) == Some(all[i])
  {
    WhereFirst(all, (nic: NetworkInterface) => nic.id == id, i);
  }
}
