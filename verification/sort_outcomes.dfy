// The unstable sort of Prune: every outcome the retention rule allows is one
// the sort can produce, and no other.
module SortOutcomes {
  import opened Names
  import opened Retention
  import opened Backup

  // Some newest-first arrangement of a set.
  lemma {:induction false} Arrange(s: set<File>) returns (g: seq<File>)
    ensures NewestFirst(g) && Arranges(g, s)
    decreases |s|
  {
    if s == {} {
      g := [];
    } else {
      var m := Newest(s);
      var rest := Arrange(s - {m});
      g := [m] + rest;
      assert forall i :: 0 <= i < |rest| ==> rest[i] in rest;
    }
  }

  lemma Joined(a: seq<File>, b: seq<File>, kept: set<File>, all: set<File>)
    requires NewestFirst(a) && Arranges(a, kept) && NewestFirst(b) && Arranges(b, all - kept) && kept <= all
    requires forall k, d :: k in kept && d in all - kept ==> k.modified >= d.modified
    ensures NewestFirst(a + b) && Arranges(a + b, all)
  {
    var g := a + b;
    forall i, j | 0 <= i < j < |g|
      ensures g[i] != g[j] && g[i].modified >= g[j].modified
    {
      if i < |a| <= j {
        assert g[i] == a[i] && a[i] in a && g[j] == b[j - |a|] && b[j - |a|] in b;
      }
    }
  }

  // What Prune keeps of a group when the sort leaves it as `g`.
  function KeptOf(rule: Rule, g: seq<File>): set<File>
  {
    if CutAt(rule, g) <= |g| then Elements(g[..CutAt(rule, g)]) else Elements(g)
  }

  // An outcome obeys the rule exactly when some newest-first arrangement of
  // the group leads to it.
  lemma OutcomeIffArrangement(rule: Rule, all: set<File>, kept: set<File>)
    ensures Pruned(rule, all, kept) <==> exists g :: NewestFirst(g) && Arranges(g, all) && KeptOf(rule, g) == kept
  {
    if g :| NewestFirst(g) && Arranges(g, all) && KeptOf(rule, g) == kept {
      CutIsPruned(rule, g, all);
    }
    if Pruned(rule, all, kept) {
      var g := ArrangementOf(rule, all, kept);
    }
  }

  lemma ArrangementOf(rule: Rule, all: set<File>, kept: set<File>) returns (g: seq<File>)
    requires Pruned(rule, all, kept)
    ensures NewestFirst(g) && Arranges(g, all) && KeptOf(rule, g) == kept
  {
    var a := Arrange(kept);
    var b := Arrange(all - kept);
    g := a + b;
    Joined(a, b, kept, all);
    CutIsPruned(rule, g, all);
    var c := CutAt(rule, g);
    DistinctSize(g[..c]);
    DistinctSize(a);
    assert Elements(a) == kept;
    assert c == |a| && g[..c] == a;
  }

  // The sort can put a file where Prune deletes it exactly when the file is
  // not safe.
  lemma SortMayDeleteIff(rule: Rule, all: set<File>, f: File)
    requires f in all
    ensures (exists g :: NewestFirst(g) && Arranges(g, all) && f !in KeptOf(rule, g)) <==> !Safe(rule, all, f)
  {
    if g :| NewestFirst(g) && Arranges(g, all) && f !in KeptOf(rule, g) {
      OutcomeIffArrangement(rule, all, KeptOf(rule, g));
      SurvivesIff(rule, all, f);
    }
    if !Safe(rule, all, f) {
      var kept := UnluckyOutcome(rule, all, f);
      var g := ArrangementOf(rule, all, kept);
    }
  }
}
