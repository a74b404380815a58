/**
  The group-ID disambiguator of `SearchByArtifactID` (pkg/javadb/client.go): tally the
  group IDs of the matching entries, then keep one with the highest count. The tally is a
  Go map whose iteration order is unspecified, so which of several equally frequent groups
  wins is left open here as well.
 */
module GroupTally {

  /** `g` occurs in `gs` and no group occurs more often. */
  ghost predicate IsMostFrequent(gs: seq<string>, g: string) {
    && g in gs
    && forall h :: h in gs ==> multiset(gs)[h] <= multiset(gs)[g]
  }

  /** The tally map built by the first loop: one entry per distinct group, holding its count. */
  function Tally(gs: seq<string>): (t: map<string, nat>)
    ensures forall g :: g in t <==> g in gs
    ensures forall g :: g in t ==> t[g] == multiset(gs)[g]
    decreases |gs|
  {
    if |gs| == 0 then map[]
    else
      var prev := Tally(gs[..|gs| - 1]);
      var g := gs[|gs| - 1];
      assert gs == gs[..|gs| - 1] + [g];
      prev[g := if g in prev then prev[g] + 1 else 1]
  }

  /** The running state of the second loop: the group kept so far and its count. */
  datatype Scan = Scan(groupID: string, maxCount: nat)

  /**
    The second loop, run over the tally keys in the order `order`: a key replaces the
    kept group only when its count is strictly greater.
   */
  function ScanInOrder(order: seq<string>, tally: map<string, nat>, acc: Scan): (r: Scan)
    requires forall k :: k in order ==> k in tally
    ensures r.maxCount >= acc.maxCount
    ensures forall k :: k in order ==> tally[k] <= r.maxCount
    ensures r == acc
            || (r.groupID in order && tally[r.groupID] == r.maxCount && r.maxCount > acc.maxCount)
    decreases |order|
  {
    if |order| == 0 then acc
    else
      var k := order[0];
      var next := if tally[k] > acc.maxCount then Scan(k, tally[k]) else acc;
      ScanInOrder(order[1..], tally, next)
  }

  /**
    Picks a most frequent group: builds the tally, enumerates its keys in an arbitrary
    order (as ranging over a Go map does) and scans them.
   */
  method MostFrequent(gs: seq<string>) returns (g: string)
    requires |gs| > 0
    ensures IsMostFrequent(gs, g)
  {
    var tally := Tally(gs);
    var order: seq<string> := [];
    var rest := tally.Keys;
    while rest != {}
      invariant rest <= tally.Keys
      invariant forall k :: k in order ==> k in tally
      invariant forall k :: k in tally ==> k in order || k in rest
      decreases rest
    {
      var k :| k in rest;
      order := order + [k];
      rest := rest - {k};
    }
    assert gs[0] in order;
    var scan := ScanInOrder(order, tally, Scan("", 0));
    g := scan.groupID;
  }

  /**
    No maximal group is excluded: whichever most frequent group the map yields first
    is the one returned, so on a tie every maximal group is a possible answer.
   */
  lemma {:induction false} AnyMaximalGroupCanWin(gs: seq<string>, g: string, rest: seq<string>)
    requires IsMostFrequent(gs, g)
    requires forall k :: k in rest ==> k in gs
    ensures ScanInOrder([g] + rest, Tally(gs), Scan("", 0)) == Scan(g, multiset(gs)[g])
  {
  }

  /**
    Reordering the rows (as sorting them by group ID does) changes nothing about which
    groups are most frequent.
   */
  lemma OrderDoesNotMatter(gs: seq<string>, gs': seq<string>, g: string)
    requires multiset(gs) == multiset(gs')
    ensures IsMostFrequent(gs, g) <==> IsMostFrequent(gs', g)
  {
  }

  /** With a single distinct group, that group is the only possible answer. */
  lemma SingleGroupWins(gs: seq<string>, g: string)
    requires |gs| > 0
    requires forall i :: 0 <= i < |gs| ==> gs[i] == g
    ensures forall h :: IsMostFrequent(gs, h) <==> h == g
  {
    assert gs[0] == g;
  }

  /**
    The collision the source comments on: "javax.servlet:jstl" contributes more rows than
    "jstl:jstl", so "javax.servlet" is the only possible answer.
   */
  lemma JstlExample()
    ensures var gs := ["javax.servlet", "jstl", "javax.servlet"];
            forall h :: IsMostFrequent(gs, h) <==> h == "javax.servlet"
  {
  }

  /** An even split leaves both groups possible: the result is not determined by the input. */
  lemma EvenSplitIsOpen()
    ensures var gs := ["jstl", "javax.servlet"];
            IsMostFrequent(gs, "jstl") && IsMostFrequent(gs, "javax.servlet")
  {
  }
}
