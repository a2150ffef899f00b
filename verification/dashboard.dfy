/** The dashboard's statistics over the stored interactions: verdict counts,
    the rounded average score and the compliance band it falls in, the volume
    histogram over the most recent records, and the verdict percentages.
    Scores are whole numbers and division is exact, so `Math.round` of a
    quotient is the nearest integer with halves rounded up. */
module Dashboard {
  import opened Types
  import opened Grouping

  // ---------------------------------------------------------------------
  // Rounding

  /** `Math.round(a / b)` for a positive divisor: the nearest integer to
      `a / b`, with halves rounded up. */
  function RoundDiv(a: int, b: int): (q: int)
    requires b > 0
    ensures b * (2 * q - 1) <= 2 * a < b * (2 * q + 1)
  {
    var n := 2 * a + b;
    var d := 2 * b;
    assert n == d * (n / d) + n % d;
    n / d
  }

  lemma MulMonotone(b: int, x: int, y: int)
    requires b > 0 && x <= y
    ensures b * x <= b * y
  {
    assert b * y - b * x == b * (y - x);
  }

  /** A quotient that lies between two whole numbers rounds to a value
      between them. */
  lemma MulCancelLt(b: int, x: int, y: int)
    requires b > 0 && b * x < b * y
    ensures x < y
  {
    if x >= y {
      MulMonotone(b, y, x);
    }
  }

  lemma MulCancelLe(b: int, x: int, y: int)
    requires b > 0 && b * x <= b * y
    ensures x <= y
  {
    if x > y {
      assert b * (y + 1) == b * y + b;
      MulMonotone(b, y + 1, x);
    }
  }

  lemma RoundDivBounds(a: int, b: int, lo: int, hi: int)
    requires b > 0
    requires b * lo <= a <= b * hi
    ensures lo <= RoundDiv(a, b) <= hi
  {
    var q := RoundDiv(a, b);
    assert b * (2 * lo) == 2 * (b * lo);
    assert b * (2 * hi) == 2 * (b * hi);
    MulCancelLt(b, 2 * lo, 2 * q + 1);
    MulCancelLe(b, 2 * q - 1, 2 * hi);
  }

  // ---------------------------------------------------------------------
  // Verdict counts

  predicate HasStatus(x: Interaction, s: Status)
  {
    x.result.Some? && x.result.value.evaluationStatus == s
  }

  /** `interactions.filter(i => i.result?.evaluationStatus === label).length`. */
  function CountStatus(xs: seq<Interaction>, s: Status): (n: nat)
    ensures n <= |xs|
    ensures n == 0 <==> forall i :: 0 <= i < |xs| ==> !HasStatus(xs[i], s)
  {
    if |xs| == 0 then 0
    else CountStatus(xs[..|xs| - 1], s) + (if HasStatus(xs[|xs| - 1], s) then 1 else 0)
  }

  /** The number of interactions stored without a result. */
  function CountPending(xs: seq<Interaction>): (n: nat)
    ensures n == 0 <==> forall i :: 0 <= i < |xs| ==> xs[i].result.Some?
  {
    if |xs| == 0 then 0
    else CountPending(xs[..|xs| - 1]) + (if xs[|xs| - 1].result.None? then 1 else 0)
  }

  /** Every interaction is counted under exactly one verdict or as pending. */
  lemma {:induction false} CountsPartition(xs: seq<Interaction>)
    ensures CountStatus(xs, Conforme) + CountStatus(xs, NaoConforme) + CountStatus(xs, FalhaGrave)
      + CountPending(xs) == |xs|
    decreases |xs|
  {
    if |xs| > 0 {
      CountsPartition(xs[..|xs| - 1]);
    }
  }

  /** The three verdict counts never exceed the total, and they add up to it
      exactly when every interaction has a result. */
  lemma CountsBound(xs: seq<Interaction>)
    ensures CountStatus(xs, Conforme) + CountStatus(xs, NaoConforme) + CountStatus(xs, FalhaGrave) <= |xs|
    ensures CountStatus(xs, Conforme) + CountStatus(xs, NaoConforme) + CountStatus(xs, FalhaGrave) == |xs|
      <==> forall i :: 0 <= i < |xs| ==> xs[i].result.Some?
  {
    CountsPartition(xs);
  }

  // ---------------------------------------------------------------------
  // Average score

  /** `curr.result?.totalScore || 0`: a missing result counts as 0. */
  function ScoreOf(x: Interaction): int
  {
    if x.result.Some? then x.result.value.totalScore else 0
  }

  function ScoreSum(xs: seq<Interaction>): int
  {
    if |xs| == 0 then 0 else ScoreSum(xs[..|xs| - 1]) + ScoreOf(xs[|xs| - 1])
  }

  predicate ScoresInRange(xs: seq<Interaction>)
  {
    forall i :: 0 <= i < |xs| ==> 0 <= ScoreOf(xs[i]) <= 100
  }

  lemma {:induction false} ScoreSumBounds(xs: seq<Interaction>)
    requires ScoresInRange(xs)
    ensures 0 <= ScoreSum(xs) <= 100 * |xs|
    decreases |xs|
  {
    if |xs| > 0 {
      ScoreSumBounds(xs[..|xs| - 1]);
    }
  }

  /** The average score: 0 for no interactions, otherwise the mean score
      rounded to the nearest integer (halves up); a percentage whenever every
      stored score is one. */
  function AverageScore(xs: seq<Interaction>): (avg: int)
    ensures |xs| == 0 ==> avg == 0
    ensures |xs| > 0 ==> |xs| * (2 * avg - 1) <= 2 * ScoreSum(xs) < |xs| * (2 * avg + 1)
    ensures ScoresInRange(xs) ==> 0 <= avg <= 100
  {
    if |xs| > 0 then
      var avg := RoundDiv(ScoreSum(xs), |xs|);
      if ScoresInRange(xs) then
        ScoreSumBounds(xs);
        RoundDivBounds(ScoreSum(xs), |xs|, 0, 100);
        avg
      else avg
    else 0
  }

  // ---------------------------------------------------------------------
  // Compliance band

  datatype ComplianceLevel = Alto | Medio | Baixo

  /** The word the summary card prints for a band. */
  function LevelLabel(l: ComplianceLevel): string
  {
    match l
    case Alto => "ALTO"
    case Medio => "MÉDIO"
    case Baixo => "BAIXO"
  }

  /** The band of an average: ALTO from 90 up, MÉDIO from 70 below 90, BAIXO below 70. */
  function LevelOf(avg: int): (l: ComplianceLevel)
    ensures l == Alto <==> avg >= 90
    ensures l == Medio <==> 70 <= avg < 90
    ensures l == Baixo <==> avg < 70
  {
    if avg >= 90 then Alto else if avg >= 70 then Medio else Baixo
  }

  const AltoColor: string := "text-emerald-600"
  const MedioColor: string := "text-amber-600"
  const BaixoColor: string := "text-rose-600"

  /** The text colour of the band, chosen by the same thresholds. */
  function ColorOf(avg: int): (c: string)
    ensures c == AltoColor <==> avg >= 90
    ensures c == MedioColor <==> 70 <= avg < 90
    ensures c == BaixoColor <==> avg < 70
  {
    if avg >= 90 then AltoColor else if avg >= 70 then MedioColor else BaixoColor
  }

  /** The colour always belongs to the band that the level names. */
  lemma ColorFollowsLevel(avg: int)
    ensures ColorOf(avg) == match LevelOf(avg)
      case Alto => AltoColor
      case Medio => MedioColor
      case Baixo => BaixoColor
  {
  }

  // ---------------------------------------------------------------------
  // Volume histogram

  datatype Bucket = Bucket(name: string, total: nat)

  /** How many records the histogram looks at: the first seven. */
  const VolumeWindow: nat := 7

  function Window(xs: seq<Interaction>): (w: seq<Interaction>)
    ensures |w| == if |xs| < VolumeWindow then |xs| else VolumeWindow
    ensures w == xs[..|w|]
  {
    if |xs| < VolumeWindow then xs else xs[..VolumeWindow]
  }

  /** The position of the bucket named `k`, or `|b|`. The same first-match
      search as `Grouping.FindKey`, over counts instead of item lists;
      `FindBucketSizes` ties the two. */
  function FindBucket(b: seq<Bucket>, k: string): (r: nat)
    ensures r <= |b|
    ensures r < |b| ==> b[r].name == k
    ensures forall i :: 0 <= i < r ==> b[i].name != k
  {
    if |b| == 0 then 0
    else if b[0].name == k then 0
    else 1 + FindBucket(b[1..], k)
  }

  /** `counts[k] = (counts[k] || 0) + 1`: a new key is appended with count 1. */
  function Bump(b: seq<Bucket>, k: string): seq<Bucket>
  {
    var i := FindBucket(b, k);
    if i < |b| then b[i := Bucket(k, b[i].total + 1)] else b + [Bucket(k, 1)]
  }

  /** The counting loop over `items`, left to right, from an empty object. */
  function Tally<T>(items: seq<T>, key: T -> string): seq<Bucket>
    decreases |items|
  {
    if |items| == 0 then []
    else
      var n := |items| - 1;
      Bump(Tally(items[..n], key), key(items[n]))
  }

  /** The size of each entry of a grouping, keeping its key. */
  function Sizes<T>(g: Groups<T>): (b: seq<Bucket>)
    ensures |b| == |g|
    ensures forall i :: 0 <= i < |g| ==> b[i] == Bucket(g[i].0, |g[i].1|)
  {
    seq(|g|, i requires 0 <= i < |g| => Bucket(g[i].0, |g[i].1|))
  }

  function TotalOf(b: seq<Bucket>): nat
  {
    if |b| == 0 then 0 else b[0].total + TotalOf(b[1..])
  }

  lemma {:induction false} FindBucketSizes<T>(g: Groups<T>, k: string)
    ensures FindBucket(Sizes(g), k) == FindKey(g, k)
    decreases |g|
  {
    if |g| > 0 && g[0].0 != k {
      assert Sizes(g)[1..] == Sizes(g[1..]);
      FindBucketSizes(g[1..], k);
    }
  }

  /** One counting step matches one step of the reduce. */
  lemma BumpSizes<T>(g: Groups<T>, k: string, x: T)
    ensures Bump(Sizes(g), k) == Sizes(Add(g, k, x))
  {
    FindBucketSizes(g, k);
    var i := FindKey(g, k);
    if i < |g| {
      assert Sizes(g)[i].total + 1 == |g[i].1 + [x]|;
    } else {
      assert Sizes(g + [(k, [x])]) == Sizes(g) + [Bucket(k, 1)];
    }
  }

  /** Counting by key gives the sizes of the groups by key. */
  lemma {:induction false} TallyIsGroupSizes<T>(items: seq<T>, key: T -> string)
    ensures Tally(items, key) == Sizes(GroupBy(items, key))
    decreases |items|
  {
    if |items| > 0 {
      var n := |items| - 1;
      TallyIsGroupSizes(items[..n], key);
      BumpSizes(GroupBy(items[..n], key), key(items[n]), items[n]);
    }
  }

  lemma {:induction false} TotalOfSizes<T>(g: Groups<T>)
    ensures TotalOf(Sizes(g)) == |Flatten(g)|
    decreases |g|
  {
    if |g| > 0 {
      assert Sizes(g)[1..] == Sizes(g[1..]);
      TotalOfSizes(g[1..]);
    }
  }

  function DateOf(x: Interaction): string
  {
    x.date
  }

  function Names(b: seq<Bucket>): (ks: seq<string>)
    ensures |ks| == |b|
    ensures forall i :: 0 <= i < |b| ==> ks[i] == b[i].name
  {
    seq(|b|, i requires 0 <= i < |b| => b[i].name)
  }

  /** Records per date among the first seven: one bucket per distinct date in
      first-seen order, each counting the records of that date, together
      counting every record of the window once. */
  function Volume(xs: seq<Interaction>): (v: seq<Bucket>)
    ensures Names(v) == FirstSeen(KeySeq(Window(xs), DateOf))
    ensures Distinct(Names(v))
    ensures forall i :: 0 <= i < |v| ==> v[i].total == |Select(Window(xs), DateOf, v[i].name)| > 0
    ensures TotalOf(v) == |Window(xs)|
    ensures v == [] <==> xs == []
  {
    var w := Window(xs);
    var g := GroupBy(w, DateOf);
    TallyIsGroupSizes(w, DateOf);
    GroupByIsSelect(w, DateOf);
    GroupByKeys(w, DateOf);
    GroupByMembers(w, DateOf);
    GroupByPermutes(w, DateOf);
    TotalOfSizes(g);
    assert Names(Sizes(g)) == KeysOf(g);
    Tally(w, DateOf)
  }

  const Placeholder: seq<Bucket> := [Bucket("-", 0)]

  /** What the chart shows: the histogram, or a single empty "-" bucket when
      there is nothing to show. */
  function FinalVolume(xs: seq<Interaction>): (v: seq<Bucket>)
    ensures v != []
    ensures v == Placeholder <==> xs == []
    ensures xs != [] ==> v == Volume(xs)
  {
    var volume := Volume(xs);
    if |volume| > 0 then
      assert volume[0].total > 0;
      volume
    else Placeholder
  }

  // ---------------------------------------------------------------------
  // Verdict percentages

  datatype Slice = Slice(name: string, value: int, color: string)

  /** A count as a rounded percentage of the total, 0 when there is nothing. */
  function Percent(count: nat, total: nat): (p: int)
    requires count <= total
    ensures total == 0 ==> p == 0
    ensures total > 0 ==> total * (2 * p - 1) <= 200 * count < total * (2 * p + 1)
    ensures 0 <= p <= 100
  {
    if total > 0 then
      RoundDivBounds(100 * count, total, 0, 100);
      RoundDiv(100 * count, total)
    else 0
  }

  /** The percentages are rounded separately, so they need not add up to
      100: one interaction of each verdict shows 33% three times. */
  lemma PercentagesNeedNotSumToHundred()
    ensures Percent(1, 3) == 33
    ensures Percent(1, 3) + Percent(1, 3) + Percent(1, 3) == 99
  {
    assert RoundDiv(100, 3) == 33;
  }

  /** The pie slices: each verdict's share of the total, in the fixed order
      CONFORME, NÃO CONFORME, NCG. */
  function ComplianceData(conforme: nat, naoConforme: nat, ncg: nat, total: nat): (d: seq<Slice>)
    requires conforme <= total && naoConforme <= total && ncg <= total
    ensures |d| == 3
    ensures d[0].value == Percent(conforme, total)
    ensures d[1].value == Percent(naoConforme, total)
    ensures d[2].value == Percent(ncg, total)
    ensures forall i :: 0 <= i < 3 ==> 0 <= d[i].value <= 100
    ensures total == 0 ==> forall i :: 0 <= i < 3 ==> d[i].value == 0
  {
    [ Slice("Conforme", Percent(conforme, total), "#10b981"),
      Slice("Não Conforme", Percent(naoConforme, total), "#f59e0b"),
      Slice("Falha Grave (NCG)", Percent(ncg, total), "#f43f5e") ]
  }

  // ---------------------------------------------------------------------
  // The statistics

  datatype Stats = Stats(
    total: nat,
    conforme: nat,
    naoConforme: nat,
    ncg: nat,
    avgScore: int,
    complianceLevel: ComplianceLevel,
    complianceColor: string,
    finalVolumeData: seq<Bucket>,
    complianceData: seq<Slice>)

  function ComputeStats(xs: seq<Interaction>): (s: Stats)
    ensures s.total == |xs|
    ensures s.conforme == CountStatus(xs, Conforme) && s.naoConforme == CountStatus(xs, NaoConforme)
      && s.ncg == CountStatus(xs, FalhaGrave)
    ensures s.conforme + s.naoConforme + s.ncg <= s.total
    ensures s.conforme + s.naoConforme + s.ncg == s.total <==> forall i :: 0 <= i < |xs| ==> xs[i].result.Some?
    ensures s.avgScore == AverageScore(xs)
    ensures s.complianceLevel == LevelOf(s.avgScore) && s.complianceColor == ColorOf(s.avgScore)
    ensures LevelLabel(s.complianceLevel)
      == if s.avgScore >= 90 then "ALTO" else if s.avgScore >= 70 then "MÉDIO" else "BAIXO"
    ensures s.finalVolumeData == FinalVolume(xs)
    ensures s.complianceData == ComplianceData(s.conforme, s.naoConforme, s.ncg, s.total)
  {
    var conforme := CountStatus(xs, Conforme);
    var naoConforme := CountStatus(xs, NaoConforme);
    var ncg := CountStatus(xs, FalhaGrave);
    CountsBound(xs);
    var avg := AverageScore(xs);
    Stats(|xs|, conforme, naoConforme, ncg, avg, LevelOf(avg), ColorOf(avg), FinalVolume(xs),
      ComplianceData(conforme, naoConforme, ncg, |xs|))
  }

  /** With no interactions the dashboard shows zeros, the BAIXO band, and the
      placeholder bucket. */
  lemma EmptyDashboard()
    ensures var s := ComputeStats([]);
      && s.total == 0 && s.conforme == 0 && s.naoConforme == 0 && s.ncg == 0
      && s.avgScore == 0 && s.complianceLevel == Baixo && s.complianceColor == BaixoColor
      && s.finalVolumeData == Placeholder
      && forall i :: 0 <= i < 3 ==> s.complianceData[i].value == 0
  {
  }
}
