/** The hosting decision, written out: who can run a design, who is compared with whom, and what is said. */
module HostingForms {
  import opened Collections
  import opened Cost
  import opened Hosting
  import opened CostEstimates

  // ---------- fit ----------

  /** Only a worker platform cannot run a design that stays up; a trade-off comes with one's own server, and for such
      a design with any other platform that runs on demand. */
  lemma FitIs(provider: Provider, hosting: HostingModel, runtime: Runtime)
    ensures var fit := ProviderFit(provider, hosting, runtime);
            && (fit.viable <==> provider != Cloudflare || runtime != LongRunning)
            && (fit.caveat <==> provider == Vps || (runtime == LongRunning && hosting == Serverless && provider != Cloudflare))
  {
  }

  // ---------- the cheapest ----------

  /** Among the least expensive the first one counts. */
  lemma {:induction false} CheapestIsFirst(pool: seq<Candidate>) returns (k: nat)
    requires pool != []
    ensures k < |pool| && pool[k] == Cheapest(pool)
    ensures forall i :: 0 <= i < |pool| ==> pool[k].monthlyUsd <= pool[i].monthlyUsd
    ensures forall i :: 0 <= i < k ==> pool[k].monthlyUsd < pool[i].monthlyUsd
  {
    var last := |pool| - 1;
    if last == 0 {
      k := 0;
    } else {
      k := CheapestIsFirst(pool[..last]);
      assert forall i :: 0 <= i < last ==> pool[..last][i] == pool[i];
      if pool[last].monthlyUsd < pool[k].monthlyUsd {
        k := last;
      }
    }
  }

  lemma {:induction false} OnlyIsKept(cs: seq<Candidate>, p: Candidate -> bool)
    ensures Only(cs, p) == Kept(cs, p)
  {
    if cs != [] {
      OnlyIsKept(cs[1..], p);
    }
  }

  // ---------- what is said about the design's own choice ----------

  /** The design's host as it is called there: by the wording of the design, else by the name in the price table. */
  lemma LabelIs(choice: Choice, pick: Option<Candidate>)
    ensures LabelFor(choice, pick) ==
              if choice.Unpriced? && choice.wording != "" then Some(choice.wording)
              else if choice.Priced? && choice.name.Some? && choice.name.value != "" then choice.name
              else if choice.Priced? && choice.name.None? && pick.Some? && pick.value.name != "" then Some(pick.value.name)
              else None
  {
  }

  /** What is told: the host, how it was come by, what the design called its own, and whether constraints were weighed. */
  lemma DecisionIsTold(cs: seq<Candidate>, choice: Choice, constrained: bool)
    requires exists c :: c in cs && c.fit.viable
    ensures var r, pick := Decision(cs, choice, constrained), Pick(cs, choice);
            && r.Some?
            && r.value.source == (if pick.Some? then (if pick.value.fit.viable then SystemDesign else DesignNotViable)
                                  else if choice.Unpriced? then DesignUnpriced
                                  else CheapestViable)
            && r.value.chosenLabel == LabelFor(choice, pick)
            && (r.value.constraintNote <==> constrained && !choice.NoHost?)
            && (pick.Some? && pick.value.fit.viable ==> r.value.provider == pick.value.provider)
  {
    hide Only, LabelFor, AlternativeTo, Cheapest, Pick;
    OnlyEmpty(cs, IsViable);
  }

  // ---------- the scales ----------

  /** Every provider is priced for a hundred, a thousand and ten thousand users, its total is the sum of the three, and
      the decision compares the bills for a thousand. */
  lemma ScalesAre(w: Workload, runtime: Runtime, i: nat)
    requires i < |PRICING|
    ensures var e := PricedTable(w, runtime)[i]; var a, b, c := BillOf(PRICING[i], 100, w), BillOf(PRICING[i], 1000, w), BillOf(PRICING[i], 10000, w);
            && e.provider == PRICING[i].id && e.name == PRICING[i].name
            && e.costs == [a, b, c]
            && TotalUsd(e.costs) == a.monthlyUsd + b.monthlyUsd + c.monthlyUsd
            && CostEstimates.Table(w, runtime)[i] == Candidate(PRICING[i].id, PRICING[i].name, b.monthlyUsd as real, e.fit)
  {
    hide BillOf, PRICING, ProviderFit, TotalUsd;
    var e := PricedTable(w, runtime)[i];
    var a, b, c := BillOf(PRICING[i], 100, w), BillOf(PRICING[i], 1000, w), BillOf(PRICING[i], 10000, w);
    assert e.costs == [a, b, c];
    ThreeBills(a, b, c);
  }

  lemma ThreeBills(a: Bill, b: Bill, c: Bill)
    ensures TotalUsd([a, b, c]) == a.monthlyUsd + b.monthlyUsd + c.monthlyUsd
  {
    assert [a, b, c][..2] == [a, b] && [a, b][..1] == [a] && [a][..0] == [];
    assert TotalUsd([a]) == a.monthlyUsd;
    assert TotalUsd([a, b]) == a.monthlyUsd + b.monthlyUsd;
  }
}
