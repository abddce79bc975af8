/**
 * rDSN's `rpc_group_address` as used for the meta-server group: an ordered
 * list of member addresses without repeats and an optional leader.
 * Random picks are made by the caller and passed in as `choice`.
 */
module GroupAddress {

  /** An `rpc_address`: either invalid or an IPv4 host and port. */
  datatype RpcAddress = InvalidAddress | Ipv4(ip: bv32, port: bv16)

  datatype Group = Group(members: seq<RpcAddress>, leader: RpcAddress)

  predicate Distinct(s: seq<RpcAddress>) {
    forall i, j :: 0 <= i < j < |s| ==> s[i] != s[j]
  }

  /** No member twice; the leader is a member unless it is unset (invalid). */
  predicate Valid(g: Group) {
    Distinct(g.members) && (g.leader == InvalidAddress || g.leader in g.members)
  }

  const EmptyGroup: Group := Group([], InvalidAddress)

  /** The addresses of `s` in the order of their first occurrence, each once. */
  function FirstOccurrences(s: seq<RpcAddress>): (r: seq<RpcAddress>)
    ensures Distinct(r)
    ensures forall x :: x in r <==> x in s
    decreases |s|
  {
    if s == [] then []
    else
      var p := FirstOccurrences(s[..|s| - 1]);
      if s[|s| - 1] in p then p else p + [s[|s| - 1]]
  }

  /** A list without repeats is its own list of first occurrences. */
  lemma {:induction false} FirstOccurrencesOfDistinct(s: seq<RpcAddress>)
    requires Distinct(s)
    ensures FirstOccurrences(s) == s
    decreases |s|
  {
    if s != [] {
      var init := s[..|s| - 1];
      FirstOccurrencesOfDistinct(init);
      assert s[|s| - 1] !in init by {
        forall j | 0 <= j < |init| ensures init[j] != s[|s| - 1] {
          assert s[j] != s[|s| - 1];
        }
      }
      assert init + [s[|s| - 1]] == s;
    }
  }

  /** Position of a member in the list. */
  function IndexOf(s: seq<RpcAddress>, a: RpcAddress): (i: nat)
    requires a in s
    ensures i < |s| && s[i] == a
    ensures forall j :: 0 <= j < i ==> s[j] != a
  {
    if s[0] == a then 0 else 1 + IndexOf(s[1..], a)
  }

  /** `add`: appends an address that is not yet a member; a member is left where it is. */
  function Add(g: Group, a: RpcAddress): (r: Group)
    ensures forall x :: x in r.members <==> x in g.members || x == a
    ensures |r.members| == |g.members| + (if a in g.members then 0 else 1)
    ensures r.members[..|g.members|] == g.members
    ensures r.leader == g.leader
    ensures Valid(g) ==> Valid(r)
  {
    if a in g.members then g else Group(g.members + [a], g.leader)
  }

  /**
   * `set_leader`: an invalid address unsets the leader; any other address
   * becomes the leader, and is appended as a member first if it is not one.
   */
  function SetLeader(g: Group, a: RpcAddress): (r: Group)
    ensures a == InvalidAddress ==> r.leader == InvalidAddress && r.members == g.members
    ensures a != InvalidAddress ==> r.leader == a && a in r.members
    ensures forall x :: x in r.members <==> x in g.members || (x == a && a != InvalidAddress)
    ensures |r.members| >= |g.members| && r.members[..|g.members|] == g.members
    ensures Valid(g) ==> Valid(r)
  {
    if a == InvalidAddress then Group(g.members, InvalidAddress)
    else if a in g.members then Group(g.members, a)
    else Group(g.members + [a], a)
  }

  /** `random_member`: some member, or the invalid address for an empty group. */
  function RandomMember(g: Group, choice: nat): (r: RpcAddress)
    ensures |g.members| > 0 ==> r in g.members
    ensures |g.members| == 0 ==> r == InvalidAddress
  {
    if |g.members| == 0 then InvalidAddress else g.members[choice % |g.members|]
  }

  /**
   * `next`: the member after `current`, wrapping round to the first; a random
   * member when `current` is invalid or not a member; invalid for an empty group.
   */
  function Next(g: Group, current: RpcAddress, choice: nat): (r: RpcAddress)
    ensures |g.members| > 0 ==> r in g.members
    ensures |g.members| == 0 ==> r == InvalidAddress
  {
    if |g.members| == 0 then InvalidAddress
    else if current == InvalidAddress || current !in g.members then RandomMember(g, choice)
    else
      var i := IndexOf(g.members, current);
      if i + 1 < |g.members| then g.members[i + 1] else g.members[0]
  }

  /** In a valid group, the member after a member is that member itself exactly when it is alone. */
  lemma NextIsSelfIffSingleton(g: Group, current: RpcAddress, choice: nat)
    requires Valid(g)
    requires current != InvalidAddress && current in g.members
    ensures Next(g, current, choice) == current <==> |g.members| == 1
  {
    var i := IndexOf(g.members, current);
    if |g.members| > 1 {
      if i + 1 < |g.members| {
        assert g.members[i] != g.members[i + 1];
      } else {
        assert g.members[0] != g.members[i];
      }
    }
  }

  /** Going round the group from a member visits the members in list order. */
  lemma NextFollowsListOrder(g: Group, k: nat, choice: nat)
    requires Valid(g)
    requires k + 1 < |g.members| && g.members[k] != InvalidAddress
    ensures Next(g, g.members[k], choice) == g.members[k + 1]
  {
  }
}
