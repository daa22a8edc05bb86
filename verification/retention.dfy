// The retention rule on one app/service group, independent of how it is
// sorted, and what follows from it.
module Retention {
  datatype File = File(app: string, service: string, name: string, modified: int)

  // KeepDays and KeepCount; the cutoff instant is what time.Now().AddDate
  // gives. A rule that is not positive is unset.
  datatype Rule = Rule(keepDays: int, keepCount: int, cutoff: int)

  predicate TooOld(rule: Rule, f: File)
  {
    rule.keepDays > 0 && f.modified < rule.cutoff
  }

  function Fresh(rule: Rule, all: set<File>): set<File>
  {
    set f | f in all && !TooOld(rule, f)
  }

  function Quota(rule: Rule, n: nat): nat
  {
    if rule.keepCount > 0 && rule.keepCount < n then rule.keepCount else n
  }

  // What Prune keeps of one group: only files not older than the cutoff,
  // exactly min(KeepCount, how many of those there are), and none of them
  // strictly older than a deleted one.
  ghost predicate Pruned(rule: Rule, all: set<File>, kept: set<File>)
  {
    && kept <= Fresh(rule, all)
    && |kept| == Quota(rule, |Fresh(rule, all)|)
    && forall k, d :: k in kept && d in all - kept ==> k.modified >= d.modified
  }

  lemma SubsetSize<T>(a: set<T>, b: set<T>)
    requires a <= b
    ensures |a| <= |b|
    ensures |a| == |b| ==> a == b
  {
    assert b == a + (b - a);
    assert |b| == |a| + |b - a|;
  }

  // Pruning again at the same instant deletes nothing.
  lemma PruneIsIdempotent(rule: Rule, all: set<File>, kept: set<File>, again: set<File>)
    requires Pruned(rule, all, kept) && Pruned(rule, kept, again)
    ensures again == kept
  {
    assert Fresh(rule, kept) == kept;
    SubsetSize(again, kept);
  }

  function AtLeast(s: set<File>, t: int): set<File>
  {
    set f | f in s && f.modified >= t
  }

  lemma KeptAtLeast(rule: Rule, all: set<File>, kept: set<File>, t: int)
    requires Pruned(rule, all, kept)
    ensures var count := |AtLeast(Fresh(rule, all), t)|;
      |AtLeast(kept, t)| == if count < |kept| then count else |kept|
  {
    var young := Fresh(rule, all);
    if AtLeast(young, t) <= kept {
      assert AtLeast(kept, t) == AtLeast(young, t);
      SubsetSize(AtLeast(kept, t), kept);
    } else {
      var d :| d in AtLeast(young, t) && d !in kept;
      assert d in all - kept;
      assert AtLeast(kept, t) == kept;
      SubsetSize(kept, AtLeast(young, t));
    }
  }

  // Two runs over one group, whatever the order of groups and however sort
  // breaks ties, keep equally many files from every instant on; without ties
  // they keep the same files.
  lemma PruneIsUniqueUpToTies(rule: Rule, all: set<File>, k1: set<File>, k2: set<File>)
    requires Pruned(rule, all, k1) && Pruned(rule, all, k2)
    ensures forall t :: |AtLeast(k1, t)| == |AtLeast(k2, t)|
    ensures (forall f, g :: f in all && g in all && f.modified == g.modified ==> f == g) ==> k1 == k2
  {
    forall t
      ensures |AtLeast(k1, t)| == |AtLeast(k2, t)|
    {
      KeptAtLeast(rule, all, k1, t);
      KeptAtLeast(rule, all, k2, t);
    }
    if k1 != k2 {
      DifferByTie(rule, all, k1, k2);
    }
  }

  lemma NotContained(a: set<File>, b: set<File>)
    requires |a| == |b| && a != b
    ensures exists f :: f in a - b
  {
    if forall f :: f in a ==> f in b {
      assert a <= b;
      SubsetSize(a, b);
    } else {
      var f :| f in a && f !in b;
      assert f in a - b;
    }
  }

  lemma DifferByTie(rule: Rule, all: set<File>, k1: set<File>, k2: set<File>)
    requires Pruned(rule, all, k1) && Pruned(rule, all, k2) && k1 != k2
    ensures exists f, g :: f in all && g in all && f != g && f.modified == g.modified
  {
    NotContained(k1, k2);
    NotContained(k2, k1);
    var f :| f in k1 - k2;
    var g :| g in k2 - k1;
    assert f in all - k2 && g in all - k1;
    assert f.modified == g.modified && f != g;
  }

  // ---------------------------------------------------------------- survival

  // The other files of the group that a sort may put before `f`.
  function Rivals(all: set<File>, f: File): set<File>
  {
    set g | g in all && g != f && g.modified >= f.modified
  }

  predicate Safe(rule: Rule, all: set<File>, f: File)
  {
    !TooOld(rule, f) && (rule.keepCount > 0 ==> |Rivals(all, f)| < rule.keepCount)
  }

  lemma SafeSurvives(rule: Rule, all: set<File>, kept: set<File>, f: File)
    requires f in all && Safe(rule, all, f) && Pruned(rule, all, kept)
    ensures f in kept
  {
    if f !in kept {
      forall k | k in kept
        ensures k in Rivals(all, f)
      {
        assert f in all - kept;
      }
      SubsetSize(kept, Rivals(all, f));
      var young := Fresh(rule, all);
      assert f in young && kept <= young - {f};
      SubsetSize(kept, young - {f});
    }
  }

  // Some set of `n` newest files of `s`, avoiding `f`.
  lemma {:induction false} NewestAvoiding(s: set<File>, n: nat, f: File) returns (top: set<File>)
    requires f in s && n <= |Rivals(s, f)|
    ensures top <= s && f !in top && |top| == n
    ensures forall k, d :: k in top && d in s - top ==> k.modified >= d.modified
    decreases n
  {
    if n == 0 {
      top := {};
    } else {
      RivalsAreOthers(s, f);
      var m := Newest(s - {f});
      RivalsWithout(s, f, m);
      var rest := NewestAvoiding(s - {m}, n - 1, f);
      top := rest + {m};
      assert m !in rest;
      forall k, d | k in top && d in s - top
        ensures k.modified >= d.modified
      {
        if k == m {
          assert d == f || d in s - {f};
        } else {
          assert k in rest && d in (s - {m}) - rest;
        }
      }
    }
  }

  lemma RivalsAreOthers(s: set<File>, f: File)
    ensures Rivals(s, f) <= s - {f}
    ensures |Rivals(s, f)| > 0 ==> s - {f} != {} && Rivals(s, f) != {}
  {
    if |Rivals(s, f)| > 0 {
      var r :| r in Rivals(s, f);
      assert r in s - {f};
    }
  }

  lemma RivalsWithout(s: set<File>, f: File, m: File)
    ensures |Rivals(s - {m}, f)| >= |Rivals(s, f)| - 1
  {
    var a, b := Rivals(s, f) - {m}, Rivals(s - {m}, f);
    SubsetSize(a, b);
    if m in Rivals(s, f) {
      assert Rivals(s, f) == a + {m};
    } else {
      assert Rivals(s, f) == a;
    }
  }

  lemma {:induction false} Newest(s: set<File>) returns (m: File)
    requires s != {}
    ensures m in s && forall g :: g in s ==> m.modified >= g.modified
    decreases |s|
  {
    m :| m in s;
    if s != {m} {
      assert s - {m} != {};
      var r := Newest(s - {m});
      if r.modified > m.modified {
        m := r;
      }
    }
  }

  // A file is sure to survive, however ties are broken, exactly when it is not
  // older than the cutoff and fewer than KeepCount other files of its group
  // are as new as it. In particular equal modification times can cost even
  // the file just written.
  lemma SurvivesIff(rule: Rule, all: set<File>, f: File)
    requires f in all
    ensures (forall kept :: Pruned(rule, all, kept) ==> f in kept) <==> Safe(rule, all, f)
  {
    if Safe(rule, all, f) {
      forall kept | Pruned(rule, all, kept)
        ensures f in kept
      {
        SafeSurvives(rule, all, kept, f);
      }
    } else {
      var kept := UnluckyOutcome(rule, all, f);
    }
  }

  lemma UnluckyOutcome(rule: Rule, all: set<File>, f: File) returns (kept: set<File>)
    requires f in all && !Safe(rule, all, f)
    ensures Pruned(rule, all, kept) && f !in kept
  {
    var young := Fresh(rule, all);
    if TooOld(rule, f) {
      kept := TopOf(young, Quota(rule, |young|));
    } else {
      assert Rivals(young, f) == Rivals(all, f);
      assert Rivals(young, f) <= young;
      SubsetSize(Rivals(young, f), young);
      kept := NewestAvoiding(young, rule.keepCount, f);
      assert Quota(rule, |young|) == rule.keepCount;
    }
    forall k, d | k in kept && d in all - kept
      ensures k.modified >= d.modified
    {
      assert k in young;
      assert d in young ==> d in young - kept;
    }
  }

  lemma {:induction false} TopOf(s: set<File>, n: nat) returns (top: set<File>)
    requires n <= |s|
    ensures top <= s && |top| == n
    ensures forall k, d :: k in top && d in s - top ==> k.modified >= d.modified
    decreases n
  {
    if n == 0 {
      top := {};
    } else {
      var m := Newest(s);
      var rest := TopOf(s - {m}, n - 1);
      top := rest + {m};
    }
  }
}
