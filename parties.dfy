/** `extract_parties` of `LegalAnalyzer` (app/core/legal_analyzer.py): three
    passes of regular-expression matches propose parties, and a party is
    kept only if no earlier party has its name.

    The party regular expressions themselves are not modelled: the groups
    they capture, pass by pass and in match order, are the input. */
module Parties {
  import opened Strings

  datatype Party = Party(name: string, partyType: string, role: string)

  const NotIdentified := Party("Not identified", "Unknown", "Unknown")

  const CompanySuffixes: seq<string> := [
    "Pty Ltd", "PTY LTD", "(Pty) Ltd", "(PTY) LTD",
    "CC", "Close Corporation",
    "NPC", "Non-Profit Company",
    "SOC Ltd", "State Owned Company",
    "Inc", "Incorporated"
  ]

  const RoleNames: seq<string> := ["Employer", "Employee", "Landlord", "Tenant", "Client", "Service Provider"]

  /** What the party regular expressions capture: group 1 of each match of
      the company pattern, one list per suffix in suffix order; both groups
      of each "between X and Y" match; and group 1 of each role match, one
      list per role in role order. */
  datatype PartyMatches = PartyMatches(
    companies: seq<seq<string>>,
    between: seq<(string, string)>,
    roles: seq<seq<string>>)

  /** One list of matches per suffix and per role. */
  predicate Shaped(m: PartyMatches) {
    |m.companies| == |CompanySuffixes| && |m.roles| == |RoleNames|
  }

  /** Party matches of the shape the patterns give. */
  type ShapedMatches = m: PartyMatches | Shaped(m)
    witness PartyMatches(seq(|CompanySuffixes|, _ => []), [], seq(|RoleNames|, _ => []))

  // ---------------------------------------------------------------------
  // The candidates, in the order the passes propose them.

  /** Pass 1 for one suffix: "<captured name> <suffix>", a company. */
  function CompanyCandidates(suffix: string, groups: seq<string>): seq<Party>
  {
    seq(|groups|, k requires 0 <= k < |groups| => Party(Strip(groups[k]) + " " + suffix, "Company", "Party"))
  }

  /** Pass 1: the suffixes in order. */
  function SuffixPass(groups: seq<seq<string>>): seq<Party>
    requires |groups| <= |CompanySuffixes|
  {
    if groups == [] then []
    else SuffixPass(groups[..|groups| - 1]) + CompanyCandidates(CompanySuffixes[|groups| - 1], groups[|groups| - 1])
  }

  /** A side of a "between" match, kept if it has at most `limit` words. */
  function Side(group: string, role: string, limit: nat): seq<Party>
  {
    if |Split(Strip(group))| <= limit then [Party(Strip(group), "Entity", role)] else []
  }

  /** Pass 2: for each match, the first party and then the second, each of at
      most ten words. */
  function BetweenPass(pairs: seq<(string, string)>): seq<Party>
  {
    if pairs == [] then []
    else
      var last := pairs[|pairs| - 1];
      BetweenPass(pairs[..|pairs| - 1]) + Side(last.0, "First Party", 10) + Side(last.1, "Second Party", 10)
  }

  /** Pass 3 for one role: names of at most eight words. */
  function RoleCandidates(role: string, groups: seq<string>): seq<Party>
  {
    if groups == [] then []
    else RoleCandidates(role, groups[..|groups| - 1]) + Side(groups[|groups| - 1], role, 8)
  }

  /** Pass 3: the roles in order. */
  function RolePass(groups: seq<seq<string>>): seq<Party>
    requires |groups| <= |RoleNames|
  {
    if groups == [] then []
    else RolePass(groups[..|groups| - 1]) + RoleCandidates(RoleNames[|groups| - 1], groups[|groups| - 1])
  }

  function AllCandidates(m: PartyMatches): seq<Party>
    requires Shaped(m)
  {
    SuffixPass(m.companies) + BetweenPass(m.between) + RolePass(m.roles)
  }

  // ---------------------------------------------------------------------
  // De-duplication by name.

  function Names(ps: seq<Party>): (r: seq<string>)
    ensures |r| == |ps| && forall k :: 0 <= k < |ps| ==> r[k] == ps[k].name
  {
    seq(|ps|, k requires 0 <= k < |ps| => ps[k].name)
  }

  /** `if name not in [p['name'] for p in parties]: parties.append(...)`. */
  function AddParty(ps: seq<Party>, c: Party): seq<Party>
  {
    if c.name in Names(ps) then ps else ps + [c]
  }

  /** Offer the candidates one after the other. */
  function AddAll(ps: seq<Party>, cs: seq<Party>): seq<Party>
  {
    if cs == [] then ps else AddParty(AddAll(ps, cs[..|cs| - 1]), cs[|cs| - 1])
  }

  lemma {:induction false} AddAllAppend(ps: seq<Party>, xs: seq<Party>, ys: seq<Party>)
    ensures AddAll(ps, xs + ys) == AddAll(AddAll(ps, xs), ys)
  {
    if ys == [] {
      assert xs + ys == xs;
    } else {
      assert (xs + ys)[..|xs + ys| - 1] == xs + ys[..|ys| - 1];
      AddAllAppend(ps, xs, ys[..|ys| - 1]);
    }
  }

  /** Offering one more candidate is one more `AddParty`. */
  lemma AddAllSnoc(ps: seq<Party>, xs: seq<Party>, x: Party)
    ensures AddAll(ps, xs + [x]) == AddParty(AddAll(ps, xs), x)
  {
    assert (xs + [x])[..|xs|] == xs;
  }

  /** Offering a side adds it exactly when it is short enough and its name
      is new. */
  lemma OfferSide(ps: seq<Party>, group: string, role: string, limit: nat)
    ensures AddAll(ps, Side(group, role, limit)) ==
      if |Split(Strip(group))| <= limit && Strip(group) !in Names(ps)
      then ps + [Party(Strip(group), "Entity", role)] else ps
  {
    if |Split(Strip(group))| <= limit {
      AddAllSnoc(ps, [], Party(Strip(group), "Entity", role));
      assert [] + [Party(Strip(group), "Entity", role)] == Side(group, role, limit);
    }
  }

  predicate DistinctNames(ps: seq<Party>) {
    forall i, j :: 0 <= i < j < |ps| ==> ps[i].name != ps[j].name
  }

  /** Offering candidates keeps the earlier parties in front and the names
      distinct, adds only candidates, and leaves no candidate's name out. */
  lemma {:induction false} AddAllKeeps(ps: seq<Party>, cs: seq<Party>)
    requires DistinctNames(ps)
    ensures ps <= AddAll(ps, cs)
    ensures DistinctNames(AddAll(ps, cs))
    ensures forall x :: x in AddAll(ps, cs) ==> x in ps || x in cs
    ensures forall k :: 0 <= k < |cs| ==> cs[k].name in Names(AddAll(ps, cs))
  {
    if cs != [] {
      var init := cs[..|cs| - 1];
      AddAllKeeps(ps, init);
      var q := AddAll(ps, init);
      var c := cs[|cs| - 1];
      assert forall k :: 0 <= k < |init| ==> cs[k] == init[k];
      if c.name !in Names(q) {
        assert Names(q + [c]) == Names(q) + [c.name];
      }
    }
  }

  /** The first candidate with a new name is the one kept: every candidate
      whose name no earlier party or candidate has is in the result as it
      was proposed. */
  lemma {:induction false} AddAllFirstWins(ps: seq<Party>, cs: seq<Party>, j: nat)
    requires DistinctNames(ps)
    requires j < |cs| && cs[j].name !in Names(ps)
    requires forall i :: 0 <= i < j ==> cs[i].name != cs[j].name
    ensures cs[j] in AddAll(ps, cs)
  {
    var init := cs[..|cs| - 1];
    AddAllKeeps(ps, init);
    if j < |cs| - 1 {
      AddAllFirstWins(ps, init, j);
    } else {
      var q := AddAll(ps, init);
      forall k | 0 <= k < |q| ensures q[k].name != cs[j].name {
        if q[k] in ps {
          var t :| 0 <= t < |ps| && ps[t] == q[k];
          assert Names(ps)[t] == q[k].name;
        } else {
          var t :| 0 <= t < |init| && init[t] == q[k];
          assert cs[t] == q[k];
        }
      }
    }
  }

  /** `extract_parties`: the de-duplicated candidates, or the single
      "Not identified" party when there are none. */
  function PartiesOf(m: PartyMatches): seq<Party>
    requires Shaped(m)
  {
    var ps := AddAll([], AllCandidates(m));
    if ps == [] then [NotIdentified] else ps
  }

  // ---------------------------------------------------------------------
  // What the candidates look like.

  /** A company is "<name> <suffix>" for one of the suffixes; any other party
      is an entity of at most ten words, and at most eight when it was found
      by its role. */
  predicate WellShaped(c: Party) {
    if c.partyType == "Company" then
      && c.role == "Party"
      && exists k :: 0 <= k < |CompanySuffixes| && EndsWithSuffix(c.name, CompanySuffixes[k])
    else
      && c.partyType == "Entity"
      && |Split(c.name)| <= 10
      && (c.role in RoleNames ==> |Split(c.name)| <= 8)
  }

  predicate EndsWithSuffix(name: string, suffix: string) {
    |name| > |suffix| && name[|name| - |suffix| - 1..] == " " + suffix
  }

  lemma {:induction false} SuffixPassShaped(groups: seq<seq<string>>)
    requires |groups| <= |CompanySuffixes|
    ensures forall c :: c in SuffixPass(groups) ==> WellShaped(c)
  {
    if groups != [] {
      SuffixPassShaped(groups[..|groups| - 1]);
      var k := |groups| - 1;
      var sfx := CompanySuffixes[k];
      forall c | c in CompanyCandidates(sfx, groups[k]) ensures WellShaped(c) {
        var i :| 0 <= i < |groups[k]| && CompanyCandidates(sfx, groups[k])[i] == c;
        assert c.name == Strip(groups[k][i]) + " " + sfx;
        assert EndsWithSuffix(c.name, sfx);
      }
    }
  }

  lemma {:induction false} BetweenPassShaped(pairs: seq<(string, string)>)
    ensures forall c :: c in BetweenPass(pairs) ==> WellShaped(c)
  {
    if pairs != [] {
      BetweenPassShaped(pairs[..|pairs| - 1]);
    }
  }

  lemma {:induction false} RoleCandidatesShaped(r: nat, groups: seq<string>)
    requires r < |RoleNames|
    ensures forall c :: c in RoleCandidates(RoleNames[r], groups) ==> WellShaped(c)
  {
    if groups != [] {
      RoleCandidatesShaped(r, groups[..|groups| - 1]);
    }
  }

  lemma {:induction false} RolePassShaped(groups: seq<seq<string>>)
    requires |groups| <= |RoleNames|
    ensures forall c :: c in RolePass(groups) ==> WellShaped(c)
  {
    if groups != [] {
      RolePassShaped(groups[..|groups| - 1]);
      RoleCandidatesShaped(|groups| - 1, groups[|groups| - 1]);
    }
  }

  /** The parties have distinct names, and the "Not identified" party is the
      whole result exactly when no pass found anything. */
  lemma PartiesSpec(m: PartyMatches)
    requires Shaped(m)
    ensures DistinctNames(PartiesOf(m))
    ensures PartiesOf(m) == [NotIdentified] <==> AllCandidates(m) == []
  {
    var cs := AllCandidates(m);
    AddAllKeeps([], cs);
    if cs != [] {
      var r := AddAll([], cs);
      assert cs[0].name in Names(r);
      CandidatesAreKnown(m);
      assert r[0] in cs;
      assert r[0] != NotIdentified;
    }
  }

  lemma CandidatesAreKnown(m: PartyMatches)
    requires Shaped(m)
    ensures forall c :: c in AllCandidates(m) ==> WellShaped(c)
  {
    SuffixPassShaped(m.companies);
    BetweenPassShaped(m.between);
    RolePassShaped(m.roles);
  }

  /** Every party found is a candidate of some pass and shaped as that pass
      makes them. */
  lemma PartiesShaped(m: PartyMatches)
    requires Shaped(m) && AllCandidates(m) != []
    ensures forall c :: c in PartiesOf(m) ==> WellShaped(c) && c in AllCandidates(m)
  {
    var cs := AllCandidates(m);
    AddAllKeeps([], cs);
    assert cs[0].name in Names(AddAll([], cs));
    CandidatesAreKnown(m);
  }

  /** The first candidate of each name is a party. */
  lemma PartiesFirstWins(m: PartyMatches, j: nat)
    requires Shaped(m)
    requires j < |AllCandidates(m)|
    requires forall i :: 0 <= i < j ==> AllCandidates(m)[i].name != AllCandidates(m)[j].name
    ensures AllCandidates(m)[j] in PartiesOf(m)
  {
    AddAllFirstWins([], AllCandidates(m), j);
  }
}
