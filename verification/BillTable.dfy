/** The bill of one small design at every provider, in whole dollars. */
module BillTable {
  import opened Cost

  // ---------- the sum of the charges ----------

  /** The bill is the sum of its charges, each in whole dollars. */
  lemma BillIsSum(p: Pricing, users: nat, w: Workload)
    ensures BillOf(p, users, w).monthlyUsd ==
              RoundUsd(ComputeCharge(p, users, w)) + RoundUsd(DatabaseCharge(p, users, w)) + RoundUsd(BandwidthCharge(p, users))
              + (if p.platformFee > 0.0 then RoundUsd(p.platformFee) else 0)
  {
    hide ComputeCharge, DatabaseCharge, BandwidthCharge, RoundUsd, Dollars, BillOf;
    BillAddsUp(p, users, w);
    LinesAre(p, users, w);
    var lines := BillOf(p, users, w).lines;
    ThreeLines(lines[..3]);
    if p.platformFee > 0.0 {
      OneMoreLine(lines);
    } else {
      assert lines[..3] == lines;
    }
  }

  lemma LinesAre(p: Pricing, users: nat, w: Workload)
    ensures var lines := BillOf(p, users, w).lines;
            && |lines| == (if p.platformFee > 0.0 then 4 else 3)
            && lines[0].usd == RoundUsd(ComputeCharge(p, users, w)) && lines[1].usd == RoundUsd(DatabaseCharge(p, users, w))
            && lines[2].usd == RoundUsd(BandwidthCharge(p, users))
            && (p.platformFee > 0.0 ==> lines[3].usd == RoundUsd(p.platformFee))
  {
    hide ComputeCharge, DatabaseCharge, BandwidthCharge, RoundUsd, Dollars;
  }

  lemma ThreeLines(lines: seq<BillLine>)
    requires |lines| == 3
    ensures Dollars(lines) == lines[0].usd + lines[1].usd + lines[2].usd
  {
    assert lines[..2][..1] == lines[..1] && lines[..1][..0] == [];
    assert Dollars(lines[..1]) == lines[0].usd;
    assert Dollars(lines[..2]) == Dollars(lines[..1]) + lines[1].usd;
  }

  lemma OneMoreLine(lines: seq<BillLine>)
    requires |lines| == 4
    ensures Dollars(lines) == Dollars(lines[..3]) + lines[3].usd
  {
  }

  // ---------- the table ----------

  /** Ten tables and three services, each deployed for itself. */
  const APART := Workload(3, 10, "microservices")

  /** The bill as its three charges and the fee. */
  predicate Costs(p: Pricing, users: nat, w: Workload, usd: nat) { BillOf(p, users, w).monthlyUsd == usd }

  /** One unit for a hundred users, two for a thousand, four beyond; and one more for each service deployed for itself,
      four at most. */
  lemma UnitsAre(users: nat, w: Workload)
    ensures w.architecture != "microservices" ==>
              ComputeUnits(users, w) == if users <= 100 then 1 else if users <= 1000 then 2 else 4
    ensures w.architecture == "microservices" ==>
              ComputeUnits(users, w) == (if users <= 100 then 1 else if users <= 1000 then 2 else 4)
                                        + (if w.services <= 1 then 1 else if w.services >= 4 then 4 else w.services)
  {
  }

  /** What the scales mean for this design. */
  lemma ScaleIs()
    ensures ComputeUnits(100, APART) == 4 && ComputeUnits(1000, APART) == 5
    ensures ComputeUnits(10000, APART) == 7 && ComputeUnits(100000, APART) == 7
    ensures DbStorageGb(100, 10) == 1 && DbStorageGb(1000, 10) == 4
    ensures DbStorageGb(10000, 10) == 34 && DbStorageGb(100000, 10) == 334
    ensures RequestsPerMonth(100) == 90000.0 && RequestsPerMonth(1000) == 900000.0
    ensures RequestsPerMonth(10000) == 9000000.0 && RequestsPerMonth(100000) == 90000000.0
    ensures BandwidthGb(100) == 5400000.0 / 1048576.0 && BandwidthGb(1000) == 54000000.0 / 1048576.0
    ensures BandwidthGb(10000) == 540000000.0 / 1048576.0 && BandwidthGb(100000) == 5400000000.0 / 1048576.0
  {
    hide ComputeUnits;
    UnitsAre(100, APART);
    UnitsAre(1000, APART);
    UnitsAre(10000, APART);
    UnitsAre(100000, APART);
  }

  /** What a month costs with a hundred, a thousand, ten thousand and a hundred thousand users. */
  predicate Row(p: Pricing, w: Workload, a: nat, b: nat, c: nat, d: nat) {
    Costs(p, 100, w, a) && Costs(p, 1000, w, b) && Costs(p, 10000, w, c) && Costs(p, 100000, w, d)
  }

  predicate IsNear(usd: real, whole: nat) { whole as real - 0.5 <= usd < whole as real + 0.5 }

  lemma NearRounds(usd: real, whole: nat)
    requires IsNear(usd, whole)
    ensures RoundUsd(usd) == whole
  {
  }

  /** Three charges and a fee, near these whole dollars, make this bill. */
  lemma At(p: Pricing, users: nat, w: Workload, compute: nat, database: nat, bandwidth: nat, fee: nat)
    requires IsNear(ComputeCharge(p, users, w), compute) && IsNear(DatabaseCharge(p, users, w), database)
    requires IsNear(BandwidthCharge(p, users), bandwidth) && p.platformFee == fee as real
    ensures Costs(p, users, w, compute + database + bandwidth + fee)
  {
    hide BillOf, RoundUsd, ComputeCharge, DatabaseCharge, BandwidthCharge, IsNear;
    NearRounds(ComputeCharge(p, users, w), compute);
    NearRounds(DatabaseCharge(p, users, w), database);
    NearRounds(BandwidthCharge(p, users), bandwidth);
    NearFee(p.platformFee, fee);
    BillIsSum(p, users, w);
  }

  /** Free traffic and free storage cost nothing. */
  lemma FreeIsFree(p: Pricing, users: nat, w: Workload)
    ensures p.bandwidthPerGb == 0.0 ==> BandwidthCharge(p, users) == 0.0
    ensures p.dbPerGb == 0.0 ==> DatabaseCharge(p, users, w) == p.dbBase + users as real / 1000.0 * p.dbScalePerThousandUsers
  {
  }

  lemma NearFee(usd: real, fee: nat)
    requires usd == fee as real
    ensures RoundUsd(usd) == fee && (fee > 0 <==> usd > 0.0)
  {
  }

  lemma AwsRow()
    ensures PRICING[0].id == Aws && Row(PRICING[0], APART, 101, 125, 256, 1255)
  {
    hide ComputeUnits, DbStorageGb, RequestsPerMonth, BandwidthGb, Costs;
    ScaleIs();
    At(PRICING[0], 100, APART, 72, 29, 0, 0);
    At(PRICING[0], 1000, APART, 90, 35, 0, 0);
    At(PRICING[0], 10000, APART, 126, 93, 37, 0);
    At(PRICING[0], 100000, APART, 126, 675, 454, 0);
  }

  lemma AzureRow()
    ensures PRICING[1].id == Azure && Row(PRICING[1], APART, 91, 112, 238, 1217)
  {
    hide ComputeUnits, DbStorageGb, RequestsPerMonth, BandwidthGb, Costs;
    ScaleIs();
    At(PRICING[1], 100, APART, 64, 27, 0, 0);
    At(PRICING[1], 1000, APART, 80, 32, 0, 0);
    At(PRICING[1], 10000, APART, 112, 90, 36, 0);
    At(PRICING[1], 100000, APART, 112, 666, 439, 0);
  }

  lemma GcpRow()
    ensures PRICING[2].id == Gcp && Row(PRICING[2], APART, 86, 107, 246, 1393)
  {
    hide ComputeUnits, DbStorageGb, RequestsPerMonth, BandwidthGb, Costs;
    ScaleIs();
    At(PRICING[2], 100, APART, 60, 26, 0, 0);
    At(PRICING[2], 1000, APART, 75, 32, 0, 0);
    At(PRICING[2], 10000, APART, 105, 91, 50, 0);
    At(PRICING[2], 100000, APART, 105, 682, 606, 0);
  }

  lemma DigitalOceanRow()
    ensures PRICING[3].id == DigitalOcean && Row(PRICING[3], APART, 64, 80, 152, 673)
  {
    hide ComputeUnits, DbStorageGb, RequestsPerMonth, BandwidthGb, Costs;
    ScaleIs();
    At(PRICING[3], 100, APART, 48, 16, 0, 0);
    At(PRICING[3], 1000, APART, 60, 20, 0, 0);
    At(PRICING[3], 10000, APART, 84, 68, 0, 0);
    At(PRICING[3], 100000, APART, 84, 548, 41, 0);
  }

  lemma RailwayRow()
    ensures PRICING[4].id == Railway && Row(PRICING[4], APART, 57, 78, 215, 1384)
  {
    hide ComputeUnits, DbStorageGb, RequestsPerMonth, BandwidthGb, Costs;
    ScaleIs();
    At(PRICING[4], 100, APART, 40, 11, 1, 5);
    At(PRICING[4], 1000, APART, 50, 18, 5, 5);
    At(PRICING[4], 10000, APART, 70, 89, 51, 5);
    At(PRICING[4], 100000, APART, 70, 794, 515, 5);
  }

  lemma RenderRow()
    ensures PRICING[5].id == Render && Row(PRICING[5], APART, 40, 58, 214, 1668)
  {
    hide ComputeUnits, DbStorageGb, RequestsPerMonth, BandwidthGb, Costs;
    ScaleIs();
    At(PRICING[5], 100, APART, 32, 8, 0, 0);
    At(PRICING[5], 1000, APART, 40, 18, 0, 0);
    At(PRICING[5], 10000, APART, 56, 117, 41, 0);
    At(PRICING[5], 100000, APART, 56, 1107, 505, 0);
  }

  lemma VercelRow()
    ensures PRICING[6].id == Vercel && Row(PRICING[6], APART, 40, 43, 160, 1407)
  {
    hide ComputeUnits, DbStorageGb, RequestsPerMonth, BandwidthGb, Costs;
    ScaleIs();
    At(PRICING[6], 100, APART, 0, 20, 0, 20);
    At(PRICING[6], 1000, APART, 0, 23, 0, 20);
    At(PRICING[6], 10000, APART, 16, 62, 62, 20);
    At(PRICING[6], 100000, APART, 178, 452, 757, 20);
  }

  lemma CloudflareRow()
    ensures PRICING[7].id == Cloudflare && Row(PRICING[7], APART, 11, 15, 56, 485)
  {
    hide ComputeUnits, DbStorageGb, RequestsPerMonth, BandwidthGb, Costs;
    ScaleIs();
    At(PRICING[7], 100, APART, 0, 6, 0, 5);
    At(PRICING[7], 1000, APART, 0, 10, 0, 5);
    At(PRICING[7], 10000, APART, 0, 51, 0, 5);
    At(PRICING[7], 100000, APART, 24, 456, 0, 5);
  }

  lemma FlyIoRow()
    ensures PRICING[8].id == FlyIo && Row(PRICING[8], APART, 37, 48, 117, 705)
  {
    hide ComputeUnits, DbStorageGb, RequestsPerMonth, BandwidthGb, Costs;
    ScaleIs();
    At(PRICING[8], 100, APART, 24, 13, 0, 0);
    At(PRICING[8], 1000, APART, 30, 18, 0, 0);
    At(PRICING[8], 10000, APART, 42, 67, 8, 0);
    At(PRICING[8], 100000, APART, 42, 562, 101, 0);
  }

  lemma HerokuRow()
    ensures PRICING[9].id == Heroku && Row(PRICING[9], APART, 111, 154, 384, 2184)
  {
    hide ComputeUnits, DbStorageGb, RequestsPerMonth, BandwidthGb, Costs, BandwidthCharge, DatabaseCharge;
    ScaleIs();
    FreeIsFree(PRICING[9], 100, APART);
    FreeIsFree(PRICING[9], 1000, APART);
    FreeIsFree(PRICING[9], 10000, APART);
    FreeIsFree(PRICING[9], 100000, APART);
    At(PRICING[9], 100, APART, 100, 11, 0, 0);
    At(PRICING[9], 1000, APART, 125, 29, 0, 0);
    At(PRICING[9], 10000, APART, 175, 209, 0, 0);
    At(PRICING[9], 100000, APART, 175, 2009, 0, 0);
  }

  lemma VpsRow()
    ensures PRICING[10].id == Vps && Row(PRICING[10], APART, 34, 44, 87, 373)
  {
    hide ComputeUnits, DbStorageGb, RequestsPerMonth, BandwidthGb, Costs;
    ScaleIs();
    At(PRICING[10], 100, APART, 28, 6, 0, 0);
    At(PRICING[10], 1000, APART, 35, 9, 0, 0);
    At(PRICING[10], 10000, APART, 49, 38, 0, 0);
    At(PRICING[10], 100000, APART, 49, 323, 1, 0);
  }
}
