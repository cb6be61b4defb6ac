/** The monthly hosting bill of a design, for one provider at one number of users. */
module Cost {
  import opened Collections

  // ---------- prices ----------

  datatype Provider = Aws | Azure | Gcp | DigitalOcean | Railway | Render | Vercel | Cloudflare | FlyIo | Heroku | Vps

  datatype HostingModel = Iaas | Paas | Serverless

  /** Price per million requests above a free allowance, in millions. */
  datatype RequestPrice = RequestPrice(freeMillions: real, perMillion: real)

  datatype Pricing = Pricing(
    id: Provider, name: string, hosting: HostingModel,
    computePerUnit: real, requests: Option<RequestPrice>,
    dbBase: real, dbPerGb: real, dbScalePerThousandUsers: real,
    bandwidthPerGb: real, bandwidthFreeGb: real,
    platformFee: real)

  const PRICING: seq<Pricing> := [
    Pricing(Aws, "Amazon Web Services", Iaas, 18.0, None, 28.0, 0.14, 6.0, 0.09, 100.0, 0.0),
    Pricing(Azure, "Microsoft Azure", Iaas, 16.0, None, 26.0, 0.12, 6.0, 0.087, 100.0, 0.0),
    Pricing(Gcp, "Google Cloud", Iaas, 15.0, None, 25.0, 0.17, 6.0, 0.12, 100.0, 0.0),
    Pricing(DigitalOcean, "DigitalOcean", Iaas, 12.0, None, 15.0, 0.1, 5.0, 0.01, 1000.0, 0.0),
    Pricing(Railway, "Railway", Paas, 10.0, None, 10.0, 0.25, 7.0, 0.1, 0.0, 5.0),
    Pricing(Render, "Render", Paas, 8.0, None, 7.0, 0.3, 10.0, 0.1, 100.0, 0.0),
    Pricing(Vercel, "Vercel", Serverless, 0.0, Some(RequestPrice(1.0, 2.0)), 19.0, 0.1, 4.0, 0.15, 100.0, 20.0),
    Pricing(Cloudflare, "Cloudflare", Serverless, 0.0, Some(RequestPrice(10.0, 0.3)), 5.0, 0.75, 2.0, 0.0, 0.0, 5.0),
    Pricing(FlyIo, "Fly.io", Paas, 6.0, None, 12.0, 0.15, 5.0, 0.02, 100.0, 0.0),
    Pricing(Heroku, "Heroku", Paas, 25.0, None, 9.0, 0.0, 20.0, 0.0, 0.0, 0.0),
    Pricing(Vps, "Self-managed VPS", Iaas, 7.0, None, 6.0, 0.05, 3.0, 0.01, 5000.0, 0.0)]

  // ---------- the workload ----------

  datatype Workload = Workload(services: nat, entities: nat, architecture: string)

  function Min(a: nat, b: nat): nat { if a <= b then a else b }

  function Max(a: nat, b: nat): nat { if a >= b then a else b }

  /** Instances a deployment that is not serverless needs. */
  function ComputeUnits(users: nat, w: Workload): nat {
    var base := if users <= 100 then 1 else if users <= 1000 then 2 else 4;
    if w.architecture == "microservices" then Min(base + Min(Max(w.services, 1), 4), 8) else base
  }

  function RequestsPerMonth(users: nat): real { users as real * 30.0 * 30.0 }

  function BandwidthGb(users: nat): real { RequestsPerMonth(users) * 60.0 / 1048576.0 }

  function DbStorageGb(users: nat, entities: nat): nat { Max(1, (entities * users + 2999) / 3000) }

  // ---------- the bill ----------

  datatype Category = Compute | Database | Bandwidth | Platform

  datatype Charge = Charge(category: Category, usd: real)

  datatype BillLine = BillLine(category: Category, usd: nat)

  datatype Bill = Bill(users: nat, monthlyUsd: nat, lines: seq<BillLine>)

  /** Nearest whole dollar, never negative. */
  function RoundUsd(n: real): nat {
    var r := (n + 0.5).Floor;
    if r < 0 then 0 else r
  }

  function AboveZero(x: real): real { if x < 0.0 then 0.0 else x }

  function ComputeCharge(p: Pricing, users: nat, w: Workload): real {
    match p.requests
    case Some(r) => AboveZero(RequestsPerMonth(users) / 1000000.0 - r.freeMillions) * r.perMillion
    case None => ComputeUnits(users, w) as real * p.computePerUnit
  }

  function DbScaleCharge(p: Pricing, users: nat): real { users as real / 1000.0 * p.dbScalePerThousandUsers }

  function DbStorageCharge(p: Pricing, users: nat, entities: nat): real { DbStorageGb(users, entities) as real * p.dbPerGb }

  function DatabaseCharge(p: Pricing, users: nat, w: Workload): real {
    p.dbBase + DbScaleCharge(p, users) + DbStorageCharge(p, users, w.entities)
  }

  function BandwidthCharge(p: Pricing, users: nat): real {
    AboveZero(BandwidthGb(users) - p.bandwidthFreeGb) * p.bandwidthPerGb
  }

  function Charges(p: Pricing, users: nat, w: Workload): seq<Charge> {
    [ Charge(Compute, ComputeCharge(p, users, w)),
      Charge(Database, DatabaseCharge(p, users, w)),
      Charge(Bandwidth, BandwidthCharge(p, users)) ]
    + (if p.platformFee > 0.0 then [Charge(Platform, p.platformFee)] else [])
  }

  function RoundedCharge(c: Charge): BillLine { BillLine(c.category, RoundUsd(c.usd)) }

  function RoundedCharges(cs: seq<Charge>): (r: seq<BillLine>)
    ensures |r| == |cs| && forall i :: 0 <= i < |cs| ==> r[i] == RoundedCharge(cs[i])
  {
    seq(|cs|, i requires 0 <= i < |cs| => RoundedCharge(cs[i]))
  }

  function Dollars(lines: seq<BillLine>): nat {
    if lines == [] then 0 else Dollars(lines[..|lines| - 1]) + lines[|lines| - 1].usd
  }

  function BillOf(p: Pricing, users: nat, w: Workload): Bill {
    var lines := RoundedCharges(Charges(p, users, w));
    Bill(users, RoundUsd(Dollars(lines) as real), lines)
  }

  method ProviderCostAtScale(p: Pricing, users: nat, w: Workload) returns (bill: Bill)
    ensures bill == BillOf(p, users, w)
  {
    hide RoundUsd, Dollars;
    var charges: seq<Charge> := [];
    if p.requests.Some? {
      var billable := AboveZero(RequestsPerMonth(users) / 1000000.0 - p.requests.value.freeMillions);
      var usd := billable * p.requests.value.perMillion;
      assert usd == ComputeCharge(p, users, w);
      charges := charges + [Charge(Compute, usd)];
    } else {
      var units := ComputeUnits(users, w);
      var usd := units as real * p.computePerUnit;
      assert usd == ComputeCharge(p, users, w);
      charges := charges + [Charge(Compute, usd)];
    }
    var dbScale := users as real / 1000.0 * p.dbScalePerThousandUsers;
    var dbStorage := DbStorageGb(users, w.entities) as real * p.dbPerGb;
    assert p.dbBase + dbScale + dbStorage == DatabaseCharge(p, users, w);
    charges := charges + [Charge(Database, p.dbBase + dbScale + dbStorage)];
    var egress := AboveZero(BandwidthGb(users) - p.bandwidthFreeGb) * p.bandwidthPerGb;
    assert egress == BandwidthCharge(p, users);
    charges := charges + [Charge(Bandwidth, egress)];
    if p.platformFee > 0.0 {
      charges := charges + [Charge(Platform, p.platformFee)];
    }
    assert charges == Charges(p, users, w);
    var lines := RoundedCharges(charges);
    bill := Bill(users, RoundUsd(Dollars(lines) as real), lines);
  }

  // ---------- what a bill guarantees ----------

  /** The headline is the exact sum of the lines shown, and each line is the whole dollar
      nearest to its charge when that charge is not negative. */
  lemma BillAddsUp(p: Pricing, users: nat, w: Workload)
    ensures var bill, charges := BillOf(p, users, w), Charges(p, users, w);
            && bill.monthlyUsd == Dollars(bill.lines) && |bill.lines| == |charges|
            && forall i :: 0 <= i < |charges| && charges[i].usd >= 0.0 ==>
                 -0.5 <= bill.lines[i].usd as real - charges[i].usd <= 0.5
  {
    hide ComputeCharge, DatabaseCharge, BandwidthCharge, Dollars;
  }

  lemma UnitsAreBounded(users: nat, w: Workload)
    ensures 1 <= ComputeUnits(users, w) <= 8
    ensures w.architecture != "microservices" ==> ComputeUnits(users, w) in [1, 2, 4]
  {
  }

  predicate ArePrices(p: Pricing) {
    && p.computePerUnit >= 0.0 && p.dbBase >= 0.0 && p.dbPerGb >= 0.0 && p.dbScalePerThousandUsers >= 0.0
    && p.bandwidthPerGb >= 0.0 && p.platformFee >= 0.0
    && (p.requests.Some? ==> p.requests.value.perMillion >= 0.0)
  }

  lemma ListedPricesAreNonNegative()
    ensures forall i :: 0 <= i < |PRICING| ==> ArePrices(PRICING[i])
  {
  }

  /** A workload at least as large in every respect. */
  predicate IsNoLarger(users: nat, w: Workload, moreUsers: nat, more: Workload) {
    && users <= moreUsers && w.services <= more.services && w.entities <= more.entities
    && (w.architecture == more.architecture || more.architecture == "microservices")
  }

  lemma UnitsGrow(users: nat, w: Workload, moreUsers: nat, more: Workload)
    requires IsNoLarger(users, w, moreUsers, more)
    ensures ComputeUnits(users, w) <= ComputeUnits(moreUsers, more)
  {
  }

  lemma ProductGrows(a: nat, b: nat, c: nat, d: nat)
    requires a <= c && b <= d
    ensures a * b <= c * d
  {
    assert a * b <= c * b;
    assert c * b <= c * d;
  }

  lemma DivisionGrows(a: nat, b: nat)
    requires a <= b
    ensures (a + 2999) / 3000 <= (b + 2999) / 3000
  {
  }

  lemma StorageGrows(users: nat, entities: nat, moreUsers: nat, moreEntities: nat)
    requires users <= moreUsers && entities <= moreEntities
    ensures DbStorageGb(users, entities) <= DbStorageGb(moreUsers, moreEntities)
  {
    ProductGrows(entities, users, moreEntities, moreUsers);
    DivisionGrows(entities * users, moreEntities * moreUsers);
  }

  lemma PricedGrows(a: real, b: real, price: real)
    requires a <= b && price >= 0.0
    ensures a * price <= b * price
  {
  }

  lemma ComputeGrows(p: Pricing, users: nat, w: Workload, moreUsers: nat, more: Workload)
    requires ArePrices(p) && IsNoLarger(users, w, moreUsers, more)
    ensures ComputeCharge(p, users, w) <= ComputeCharge(p, moreUsers, more)
  {
    hide ComputeUnits;
    match p.requests
    case None =>
      UnitsGrow(users, w, moreUsers, more);
      PricedGrows(ComputeUnits(users, w) as real, ComputeUnits(moreUsers, more) as real, p.computePerUnit);
    case Some(r) =>
      PricedGrows(AboveZero(RequestsPerMonth(users) / 1000000.0 - r.freeMillions),
                  AboveZero(RequestsPerMonth(moreUsers) / 1000000.0 - r.freeMillions), r.perMillion);
  }

  lemma DbScaleGrows(p: Pricing, users: nat, moreUsers: nat)
    requires ArePrices(p) && users <= moreUsers
    ensures DbScaleCharge(p, users) <= DbScaleCharge(p, moreUsers)
  {
    PricedGrows(users as real / 1000.0, moreUsers as real / 1000.0, p.dbScalePerThousandUsers);
  }

  lemma DatabaseGrows(p: Pricing, users: nat, w: Workload, moreUsers: nat, more: Workload)
    requires ArePrices(p) && IsNoLarger(users, w, moreUsers, more)
    ensures DatabaseCharge(p, users, w) <= DatabaseCharge(p, moreUsers, more)
  {
    hide DbStorageGb, DbScaleCharge;
    DbScaleGrows(p, users, moreUsers);
    StorageGrows(users, w.entities, moreUsers, more.entities);
    PricedGrows(DbStorageGb(users, w.entities) as real, DbStorageGb(moreUsers, more.entities) as real, p.dbPerGb);
  }

  lemma BandwidthGrows(p: Pricing, users: nat, moreUsers: nat)
    requires ArePrices(p) && users <= moreUsers
    ensures BandwidthCharge(p, users) <= BandwidthCharge(p, moreUsers)
  {
    PricedGrows(AboveZero(BandwidthGb(users) - p.bandwidthFreeGb), AboveZero(BandwidthGb(moreUsers) - p.bandwidthFreeGb), p.bandwidthPerGb);
  }

  lemma {:induction false} DollarsGrow(a: seq<BillLine>, b: seq<BillLine>)
    requires |a| == |b| && forall i :: 0 <= i < |a| ==> a[i].usd <= b[i].usd
    ensures Dollars(a) <= Dollars(b)
  {
    if a != [] {
      DollarsGrow(a[..|a| - 1], b[..|b| - 1]);
    }
  }

  lemma RoundUsdGrows(a: real, b: real)
    requires a <= b
    ensures RoundUsd(a) <= RoundUsd(b)
  {
    assert (a + 0.5).Floor <= (b + 0.5).Floor;
  }

  /** Whatever the prices, as long as none is negative: more users, more entities, more services
      or going from one deployable to microservices never makes the bill smaller, nor any line
      of it. */
  lemma BillGrows(p: Pricing, users: nat, w: Workload, moreUsers: nat, more: Workload)
    requires ArePrices(p) && IsNoLarger(users, w, moreUsers, more)
    ensures var bill, dearer := BillOf(p, users, w), BillOf(p, moreUsers, more);
            && bill.monthlyUsd <= dearer.monthlyUsd && |bill.lines| == |dearer.lines|
            && forall i :: 0 <= i < |bill.lines| ==>
                 bill.lines[i].category == dearer.lines[i].category && bill.lines[i].usd <= dearer.lines[i].usd
  {
    hide ComputeCharge, DatabaseCharge, BandwidthCharge, RoundUsd, Dollars;
    var bill, dearer := BillOf(p, users, w), BillOf(p, moreUsers, more);
    var cs, ds := Charges(p, users, w), Charges(p, moreUsers, more);
    ComputeGrows(p, users, w, moreUsers, more);
    DatabaseGrows(p, users, w, moreUsers, more);
    BandwidthGrows(p, users, moreUsers);
    forall i | 0 <= i < |cs| ensures bill.lines[i].usd <= dearer.lines[i].usd {
      RoundUsdGrows(cs[i].usd, ds[i].usd);
    }
    DollarsGrow(bill.lines, dearer.lines);
    RoundUsdGrows(Dollars(bill.lines) as real, Dollars(dearer.lines) as real);
  }
}
