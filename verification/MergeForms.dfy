/** What a merge takes over from a repair or fallback build, written out. */
module MergeForms {
  import opened Text
  import opened Collections
  import opened Numerals
  import opened Schema
  import opened Coverage
  import opened Merge

  // ---------- groups ----------

  predicate IsNamed(ms: seq<ApiModule>, name: string) {
    exists i :: 0 <= i < |ms| && ms[i].name == name
  }

  /** The wanted name, or, when a group has it, the first free one of `name 2`, `name 3`, ... */
  ghost predicate IsFreeNameFor(name: string, wanted: string, ms: seq<ApiModule>) {
    if !IsNamed(ms, wanted) then name == wanted
    else exists n :: n >= 2 && IsSpare(name, wanted, ms, n)
  }

  predicate IsSpare(name: string, wanted: string, ms: seq<ApiModule>, n: nat) {
    && name == wanted + " " + Decimal(n) && !IsNamed(ms, name)
    && forall k :: 2 <= k < n ==> IsNamed(ms, wanted + " " + Decimal(k))
  }

  lemma FreeNameIs(wanted: string, ms: seq<ApiModule>)
    ensures IsFreeNameFor(FreeName(wanted, " ", ModuleNames(ms)), wanted, ms)
  {
    var used := ModuleNames(ms);
    assert forall name :: name in used <==> IsNamed(ms, name);
    FreeIndexIsFirstFree(wanted, " ", used, 1);
    var n, name := FreeIndex(wanted, " ", used, 1), FreeName(wanted, " ", used);
    assert n > 1 ==> Candidate(wanted, " ", 1) in used;
    if IsNamed(ms, wanted) {
      assert Candidate(wanted, " ", 1) == wanted && n >= 2;
      forall k | 2 <= k < n ensures IsNamed(ms, wanted + " " + Decimal(k)) {
        assert Candidate(wanted, " ", k) in used;
      }
      assert IsSpare(name, wanted, ms, n);
    }
  }

  /** The group claims an entity that is missing. */
  predicate ClaimsMissing(m: ApiModule, missing: seq<string>) {
    exists i :: 0 <= i < |m.Claims()| && Resolve(missing, m.Claims()[i]).Some?
  }

  /** The group as it was but for a free name and for its coverage, which is what it claims of the missing
      entities, by their own names and once each. */
  ghost predicate IsTakenOver(r: ApiModule, m: ApiModule, before: seq<ApiModule>, missing: seq<string>) {
    && r == m.(name := r.name, coveredEntities := r.coveredEntities)
    && IsFreeNameFor(r.name, m.name, before)
    && r.coveredEntities.Some? && NoDuplicates(r.Claims())
    && (forall x :: x in r.Claims() ==> IsClaimed(m.Claims(), missing, x))
    && (forall i :: 0 <= i < |m.Claims()| && Resolve(missing, m.Claims()[i]).Some? ==>
          Resolve(missing, m.Claims()[i]).value in r.Claims())
  }

  predicate IsClaimed(claims: seq<string>, missing: seq<string>, x: string) {
    exists i :: 0 <= i < |claims| && Resolve(missing, claims[i]) == Some(x)
  }

  lemma {:induction false} ResolvedAre(claims: seq<string>, missing: seq<string>, x: string)
    ensures x in ResolveAll(claims, missing) <==> IsClaimed(claims, missing, x)
  {
    hide Resolve;
    if claims != [] {
      ResolvedAre(claims[..|claims| - 1], missing, x);
      assert claims == claims[..|claims| - 1] + [claims[|claims| - 1]];
    }
  }

  lemma AdoptedIsTakenOver(m: ApiModule, before: seq<ApiModule>, missing: seq<string>)
    ensures IsTakenOver(Adopted(m, missing, ModuleNames(before)), m, before, missing)
    ensures Fills(m, missing) != [] <==> ClaimsMissing(m, missing)
  {
    hide Resolve, IsFreeNameFor, FreeName;
    FreeNameIs(m.name, before);
    DistinctMembers(Fills(m, missing));
    forall x ensures x in Fills(m, missing) <==> IsClaimed(m.Claims(), missing, x) {
      ResolvedAre(m.Claims(), missing, x);
    }
    if Fills(m, missing) != [] {
      assert Fills(m, missing)[0] in Fills(m, missing);
    }
    if i :| 0 <= i < |m.Claims()| && Resolve(missing, m.Claims()[i]).Some? {
      assert IsClaimed(m.Claims(), missing, Resolve(missing, m.Claims()[i]).value);
    }
  }

  /** The groups designed are kept; behind them come, in order, exactly the groups that claim a missing entity. */
  lemma {:induction false} GroupsAreTakenOver(start: seq<ApiModule>, added: seq<ApiModule>, missing: seq<string>)
    ensures var ms, taken := MergedModules(start, added, missing), Kept(added, (m: ApiModule) => ClaimsMissing(m, missing));
            && |ms| == |start| + |taken| && ms[..|start|] == start
            && forall k :: 0 <= k < |taken| ==> IsTakenOver(ms[|start| + k], taken[k], ms[..|start| + k], missing)
  {
    hide ClaimsMissing, IsTakenOver, Fills, Adopted;
    if added != [] {
      var front, last := added[..|added| - 1], added[|added| - 1];
      var so, ms := MergedModules(start, front, missing), MergedModules(start, added, missing);
      GroupsAreTakenOver(start, front, missing);
      AdoptedIsTakenOver(last, so, missing);
      KeptSnoc(front, last, (m: ApiModule) => ClaimsMissing(m, missing));
      assert added == front + [last];
      assert ms[..|so|] == so;
      forall k | 0 <= k <= |so| ensures ms[..k] == so[..k] {
      }
    }
  }

  // ---------- exclusions ----------

  /** A stated reason to leave this entity out. */
  predicate Justifies(e: ExcludedEntity, missing: seq<string>, name: string) {
    Resolve(missing, e.entity) == Some(name) && Trim(e.reason) != ""
  }

  predicate IsFirstReason(added: seq<ExcludedEntity>, missing: seq<string>, name: string, k: nat) {
    && k < |added| && Justifies(added[k], missing, name)
    && forall j :: 0 <= j < k ==> !Justifies(added[j], missing, name)
  }

  /** The exclusion bears the first reason stated for it. */
  predicate IsReasoned(e: ExcludedEntity, added: seq<ExcludedEntity>, missing: seq<string>) {
    exists k :: 0 <= k < |added| && IsFirstReason(added, missing, e.entity, k) && e.reason == Trim(added[k].reason)
  }

  predicate IsListed(es: seq<ExcludedEntity>, name: string) {
    exists i :: 0 <= i < |es| && es[i].entity == name
  }

  predicate HasReason(added: seq<ExcludedEntity>, missing: seq<string>, name: string) {
    exists k :: 0 <= k < |added| && Justifies(added[k], missing, name)
  }

  lemma ReasonedLater(e: ExcludedEntity, front: seq<ExcludedEntity>, last: ExcludedEntity, missing: seq<string>)
    requires IsReasoned(e, front, missing)
    ensures IsReasoned(e, front + [last], missing)
  {
    hide Justifies;
    var k :| 0 <= k < |front| && IsFirstReason(front, missing, e.entity, k) && e.reason == Trim(front[k].reason);
    assert IsFirstReason(front + [last], missing, e.entity, k);
  }

  lemma FirstReasoned(e: ExcludedEntity, front: seq<ExcludedEntity>, last: ExcludedEntity, missing: seq<string>)
    requires !HasReason(front, missing, e.entity) && Justifies(last, missing, e.entity) && e.reason == Trim(last.reason)
    ensures IsReasoned(e, front + [last], missing)
  {
    hide Justifies;
    assert IsFirstReason(front + [last], missing, e.entity, |front|);
  }

  lemma ReasonSnoc(front: seq<ExcludedEntity>, last: ExcludedEntity, missing: seq<string>, name: string)
    ensures HasReason(front + [last], missing, name) <==> HasReason(front, missing, name) || Justifies(last, missing, name)
  {
    hide Justifies;
    assert forall k :: 0 <= k < |front| ==> (front + [last])[k] == front[k];
    assert (front + [last])[|front|] == last;
  }

  /** Exactly the entities with a stated reason that no group lists become excluded, each with its first
      reason, trimmed; what was excluded stays. */
  lemma {:induction false} ReasonsAreTakenOver(start: seq<ExcludedEntity>, added: seq<ExcludedEntity>, missing: seq<string>, filled: set<string>)
    ensures var es := MergedExclusions(start, added, missing, filled);
            && |es| >= |start| && es[..|start|] == start
            && (forall i :: |start| <= i < |es| ==> IsReasoned(es[i], added, missing))
            && (forall name :: IsListed(es, name) <==>
                  IsListed(start, name) || (name !in filled && HasReason(added, missing, name)))
  {
    hide Resolve, Trim, IsReasoned, HasReason;
    if added == [] {
      NoReason(missing);
    } else {
      var front, last := added[..|added| - 1], added[|added| - 1];
      var so, es := MergedExclusions(start, front, missing, filled), MergedExclusions(start, added, missing, filled);
      assert added == front + [last];
      ReasonsAreTakenOver(start, front, missing, filled);
      forall i | |start| <= i < |so| ensures IsReasoned(so[i], added, missing) {
        ReasonedLater(so[i], front, last, missing);
      }
      forall name ensures HasReason(added, missing, name) <==> HasReason(front, missing, name) || Justifies(last, missing, name) {
        ReasonSnoc(front, last, missing, name);
      }
      assert forall name :: name in EntitiesOf(so) <==> IsListed(so, name);
      if es != so {
        var n := Resolve(missing, last.entity).value;
        assert es == so + [ExcludedEntity(n, Trim(last.reason))] && Justifies(last, missing, n);
        FirstReasoned(es[|so|], front, last, missing);
        ListedSnoc(so, es[|so|]);
      }
    }
  }

  lemma ListedSnoc(so: seq<ExcludedEntity>, e: ExcludedEntity)
    ensures forall name :: IsListed(so + [e], name) <==> IsListed(so, name) || name == e.entity
  {
    assert forall k :: 0 <= k < |so| ==> (so + [e])[k] == so[k];
    assert (so + [e])[|so|] == e;
  }

  lemma NoReason(missing: seq<string>)
    ensures forall name :: !HasReason([], missing, name)
  {
  }
}
