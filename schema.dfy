/** The column layout of the JEDI catalog (CharacterizeStealthCMEs.py,
    lines 82-124): seven event columns, then one group per channel feature
    listing every channel, then one group per pair feature listing every
    ordered pair of distinct channels. Columns are typed values; `Header`
    renders them to the names written on the catalog's first line. */
module Schema {

  datatype MetaField =
    | EventNumber | StartTime | EndTime | GoesFlareClass
    | PreFlareStartTime | PreFlareEndTime | FlareInterrupt

  datatype Feature =
    | PreFlareIrradiance
    | SlopeStartTime | SlopeEndTime | SlopeMin | SlopeMax | SlopeMean | SlopeUncertainty
    | DepthTime | Depth | DepthUncertainty
    | DurationStartTime | DurationEndTime | Duration
    | CorrectionTimeShift | CorrectionScaleFactor
    | FittingGamma | FittingScore

  datatype Column =
    | Meta(field: MetaField)
    | OfChannel(channel: string, feature: Feature)
    | OfPair(first: string, second: string, feature: Feature)

  const MetaFields: seq<MetaField> :=
    [EventNumber, StartTime, EndTime, GoesFlareClass, PreFlareStartTime, PreFlareEndTime, FlareInterrupt]

  /** The fifteen per-channel groups, in catalog order. */
  const ChannelFeatures: seq<Feature> :=
    [PreFlareIrradiance, SlopeStartTime, SlopeEndTime, SlopeMin, SlopeMax, SlopeMean, SlopeUncertainty,
     DepthTime, Depth, DepthUncertainty, DurationStartTime, DurationEndTime, Duration,
     FittingGamma, FittingScore]

  /** The sixteen per-pair groups, in catalog order: the channel groups
      without the pre-flare irradiance, plus the two correction fields. */
  const PairFeatures: seq<Feature> :=
    [SlopeStartTime, SlopeEndTime, SlopeMin, SlopeMax, SlopeMean, SlopeUncertainty,
     DepthTime, Depth, DepthUncertainty, DurationStartTime, DurationEndTime, Duration,
     CorrectionTimeShift, CorrectionScaleFactor, FittingGamma, FittingScore]

  function MetaName(m: MetaField): string
  {
    match m
    case EventNumber => "Event #"
    case StartTime => "Start Time"
    case EndTime => "End Time"
    case GoesFlareClass => "GOES Flare Class"
    case PreFlareStartTime => "Pre-Flare Start Time"
    case PreFlareEndTime => "Pre-Flare End Time"
    case FlareInterrupt => "Flare Interrupt"
  }

  function Suffix(f: Feature): string
  {
    match f
    case PreFlareIrradiance => " Pre-Flare Irradiance [W/m2]"
    case SlopeStartTime => " Slope Start Time"
    case SlopeEndTime => " Slope End Time"
    case SlopeMin => " Slope Min [%/s]"
    case SlopeMax => " Slope Max [%/s]"
    case SlopeMean => " Slope Mean [%/s]"
    case SlopeUncertainty => " Slope Uncertainty [%/s]"
    case DepthTime => " Depth Time"
    case Depth => " Depth [%]"
    case DepthUncertainty => " Depth Uncertainty [%]"
    case DurationStartTime => " Duration Start Time"
    case DurationEndTime => " Duration End Time"
    case Duration => " Duration [s]"
    case CorrectionTimeShift => " Correction Time Shift [s]"
    case CorrectionScaleFactor => " Correction Scale Factor"
    case FittingGamma => " Fitting Gamma"
    case FittingScore => " Fitting Score"
  }

  /** `' by '.join((a, b))`. */
  function PairName(a: string, b: string): string
  {
    a + " by " + b
  }

  function ColumnName(c: Column): string
  {
    match c
    case Meta(m) => MetaName(m)
    case OfChannel(ch, f) => ch + Suffix(f)
    case OfPair(a, b, f) => PairName(a, b) + Suffix(f)
  }

  /** Position s * n + c of a grid of m rows of n lies inside it. */
  lemma IndexInGrid(s: nat, m: nat, c: nat, n: nat)
    requires s < m && c < n
    ensures s * n + c < m * n
  {
    assert (s + 1) * n <= m * n by {
      assert m * n == (s + 1) * n + (m - s - 1) * n;
    }
  }

  // ---------------------------------------------------------------------
  // itertools.permutations(channels, 2)

  /** The pairs (channels[i], channels[j]) for j = from, from + 1, ... skipping j == i. */
  function PartnersFrom(chs: seq<string>, i: nat, from: nat): seq<(string, string)>
    requires i < |chs| && from <= |chs|
    decreases |chs| - from
  {
    if from == |chs| then []
    else if from == i then PartnersFrom(chs, i, from + 1)
    else [(chs[i], chs[from])] + PartnersFrom(chs, i, from + 1)
  }

  /** The pairs whose first channel is channels[i], channels[i + 1], ... */
  function PermutationsFrom(chs: seq<string>, i: nat): seq<(string, string)>
    requires i <= |chs|
    decreases |chs| - i
  {
    if i == |chs| then [] else PartnersFrom(chs, i, 0) + PermutationsFrom(chs, i + 1)
  }

  /** Ordered pairs of channels at distinct positions, in itertools order. */
  function Permutations(chs: seq<string>): seq<(string, string)>
  {
    PermutationsFrom(chs, 0)
  }

  /** Where channels[j] sits among the partners of channels[i] counted from `from`. */
  function PartnerPos(i: nat, from: nat, j: nat): int
  {
    (j - from) - (if from <= i < j then 1 else 0)
  }

  lemma {:induction false} PartnersFromShape(chs: seq<string>, i: nat, from: nat)
    requires i < |chs| && from <= |chs|
    ensures |PartnersFrom(chs, i, from)| == |chs| - from - (if from <= i then 1 else 0)
    ensures forall j :: from <= j < |chs| && j != i ==>
              0 <= PartnerPos(i, from, j) < |PartnersFrom(chs, i, from)| &&
              PartnersFrom(chs, i, from)[PartnerPos(i, from, j)] == (chs[i], chs[j])
    ensures forall p :: p in PartnersFrom(chs, i, from) ==>
              exists j :: from <= j < |chs| && j != i && p == (chs[i], chs[j])
    decreases |chs| - from
  {
    if from < |chs| {
      PartnersFromShape(chs, i, from + 1);
    }
  }

  lemma {:induction false} PartnersLength(chs: seq<string>, i: nat)
    requires i < |chs|
    ensures |PartnersFrom(chs, i, 0)| == |chs| - 1
  {
    PartnersFromShape(chs, i, 0);
  }

  /** Where the block of rows i, i + 1, ... that starts at row a begins, for rows of n. */
  function BlockStart(i: nat, a: nat, n: int): (r: int)
    requires i <= a
    ensures n >= 0 ==> r >= 0
    decreases a - i
  {
    if a == i then 0 else n + BlockStart(i + 1, a, n)
  }

  lemma {:induction false} BlockStartProduct(i: nat, a: nat, n: int)
    requires i <= a
    ensures BlockStart(i, a, n) == (a - i) * n
    decreases a - i
  {
    if a > i {
      BlockStartProduct(i + 1, a, n);
      assert (a - i) * n == n + (a - (i + 1)) * n;
    }
  }

  lemma {:induction false} PermutationsFromLength(chs: seq<string>, i: nat)
    requires i <= |chs|
    ensures |PermutationsFrom(chs, i)| == BlockStart(i, |chs|, |chs| - 1)
    decreases |chs| - i
  {
    if i < |chs| {
      PartnersLength(chs, i);
      PermutationsFromLength(chs, i + 1);
    }
  }

  lemma {:induction false} PermutationsFromMembers(chs: seq<string>, i: nat)
    requires i <= |chs|
    ensures forall p :: p in PermutationsFrom(chs, i) ==>
              exists a, b :: i <= a < |chs| && 0 <= b < |chs| && a != b && p == (chs[a], chs[b])
    decreases |chs| - i
  {
    if i < |chs| {
      PartnersFromShape(chs, i, 0);
      PermutationsFromMembers(chs, i + 1);
      var head, tail := PartnersFrom(chs, i, 0), PermutationsFrom(chs, i + 1);
      forall p | p in head + tail
        ensures exists a, b :: i <= a < |chs| && 0 <= b < |chs| && a != b && p == (chs[a], chs[b])
      {
        if p in head {
          var j :| 0 <= j < |chs| && j != i && p == (chs[i], chs[j]);
        }
      }
    }
  }

  lemma {:induction false} PartnerAt(chs: seq<string>, a: nat, b: nat)
    requires a < |chs| && b < |chs| && a != b
    ensures 0 <= PartnerPos(a, 0, b) < |chs| - 1
    ensures |PartnersFrom(chs, a, 0)| == |chs| - 1
    ensures PartnersFrom(chs, a, 0)[PartnerPos(a, 0, b)] == (chs[a], chs[b])
  {
    PartnersFromShape(chs, a, 0);
  }

  lemma ConcatAt<T>(x: seq<T>, y: seq<T>, k: nat)
    requires |x| <= k < |x| + |y|
    ensures (x + y)[k] == y[k - |x|]
  {
  }

  lemma {:induction false} PermutationsFromAt(chs: seq<string>, i: nat, a: nat, b: nat)
    requires i <= a < |chs| && b < |chs| && a != b
    ensures BlockStart(i, a, |chs| - 1) + PartnerPos(a, 0, b) < |PermutationsFrom(chs, i)|
    ensures PermutationsFrom(chs, i)[BlockStart(i, a, |chs| - 1) + PartnerPos(a, 0, b)] == (chs[a], chs[b])
    decreases |chs| - i
  {
    var n := |chs| - 1;
    var pos := PartnerPos(a, 0, b);
    PartnerAt(chs, a, b);
    PartnersLength(chs, i);
    PermutationsFromLength(chs, i + 1);
    var head, tail := PartnersFrom(chs, i, 0), PermutationsFrom(chs, i + 1);
    assert PermutationsFrom(chs, i) == head + tail;
    if a > i {
      PermutationsFromAt(chs, i + 1, a, b);
      var rest := BlockStart(i + 1, a, n) + pos;
      assert BlockStart(i, a, n) + pos == |head| + rest;
      ConcatAt(head, tail, |head| + rest);
    } else {
      assert BlockStart(i, a, n) + pos == pos;
      assert (head + tail)[pos] == head[pos];
    }
  }

  /** There are N(N-1) pairs; the pair of channels[a] then channels[b]
      (a != b) sits at a(N-1) + b, less one when b comes after a: both
      directions are present, in itertools order. */
  lemma PermutationAt(chs: seq<string>, a: nat, b: nat)
    requires a < |chs| && b < |chs| && a != b
    ensures |Permutations(chs)| == |chs| * (|chs| - 1)
    ensures var k := a * (|chs| - 1) + (if b < a then b else b - 1);
            k < |Permutations(chs)| && Permutations(chs)[k] == (chs[a], chs[b])
  {
    var n := |chs| - 1;
    PermutationsFromAt(chs, 0, a, b);
    PermutationsFromLength(chs, 0);
    BlockStartProduct(0, a, n);
    BlockStartProduct(0, |chs|, n);
  }

  /** Every pair joins channels at two distinct positions, so with distinct
      channel names no pair joins a channel with itself. */
  lemma PermutationsDistinct(chs: seq<string>)
    requires forall x, y :: 0 <= x < y < |chs| ==> chs[x] != chs[y]
    ensures forall p :: p in Permutations(chs) ==> p.0 != p.1
  {
    PermutationsFromMembers(chs, 0);
    forall p | p in Permutations(chs)
      ensures p.0 != p.1
    {
      var a, b :| 0 <= a < |chs| && 0 <= b < |chs| && a != b && p == (chs[a], chs[b]);
      if a < b {
        assert chs[a] != chs[b];
      } else {
        assert chs[b] != chs[a];
      }
    }
  }

  // ---------------------------------------------------------------------
  // Column groups

  /** For each feature in turn, one column per channel (`columns + suffix`). */
  function ChannelColumns(chs: seq<string>, features: seq<Feature>): seq<Column>
  {
    if |features| == 0 then []
    else seq(|chs|, c requires 0 <= c < |chs| => OfChannel(chs[c], features[0])) + ChannelColumns(chs, features[1..])
  }

  /** For each feature in turn, one column per ordered channel pair. */
  function PairColumns(pairs: seq<(string, string)>, features: seq<Feature>): seq<Column>
  {
    if |features| == 0 then []
    else seq(|pairs|, p requires 0 <= p < |pairs| => OfPair(pairs[p].0, pairs[p].1, features[0]))
         + PairColumns(pairs, features[1..])
  }

  lemma {:induction false} ChannelColumnsAt(chs: seq<string>, features: seq<Feature>, s: nat, c: nat)
    requires s < |features| && c < |chs|
    ensures |ChannelColumns(chs, features)| == |features| * |chs|
    ensures s * |chs| + c < |features| * |chs|
    ensures ChannelColumns(chs, features)[s * |chs| + c] == OfChannel(chs[c], features[s])
  {
    ChannelColumnsLength(chs, features);
    IndexInGrid(s, |features|, c, |chs|);
    if s > 0 {
      ChannelColumnsAt(chs, features[1..], s - 1, c);
      assert s * |chs| == |chs| + (s - 1) * |chs|;
    }
  }

  lemma {:induction false} ChannelColumnsLength(chs: seq<string>, features: seq<Feature>)
    ensures |ChannelColumns(chs, features)| == |features| * |chs|
  {
    if |features| > 0 {
      ChannelColumnsLength(chs, features[1..]);
    }
  }

  lemma {:induction false} PairColumnsLength(pairs: seq<(string, string)>, features: seq<Feature>)
    ensures |PairColumns(pairs, features)| == |features| * |pairs|
  {
    if |features| > 0 {
      PairColumnsLength(pairs, features[1..]);
    }
  }

  lemma {:induction false} PairColumnsAt(pairs: seq<(string, string)>, features: seq<Feature>, s: nat, p: nat)
    requires s < |features| && p < |pairs|
    ensures |PairColumns(pairs, features)| == |features| * |pairs|
    ensures s * |pairs| + p < |features| * |pairs|
    ensures PairColumns(pairs, features)[s * |pairs| + p] == OfPair(pairs[p].0, pairs[p].1, features[s])
  {
    PairColumnsLength(pairs, features);
    IndexInGrid(s, |features|, p, |pairs|);
    if s > 0 {
      PairColumnsAt(pairs, features[1..], s - 1, p);
      assert s * |pairs| == |pairs| + (s - 1) * |pairs|;
    }
  }

  /** Every column of the catalog, in order. */
  function Columns(chs: seq<string>): seq<Column>
  {
    seq(|MetaFields|, m requires 0 <= m < |MetaFields| => Meta(MetaFields[m]))
    + ChannelColumns(chs, ChannelFeatures)
    + PairColumns(Permutations(chs), PairFeatures)
  }

  /** The header line written once when the catalog is created. */
  function Header(chs: seq<string>): (h: seq<string>)
    ensures |h| == |Columns(chs)|
    ensures forall k :: 0 <= k < |h| ==> h[k] == ColumnName(Columns(chs)[k])
  {
    var cols := Columns(chs);
    seq(|cols|, k requires 0 <= k < |cols| => ColumnName(cols[k]))
  }

  /** The seven event columns. */
  function MetaColumns(): seq<Column>
  {
    seq(|MetaFields|, m requires 0 <= m < |MetaFields| => Meta(MetaFields[m]))
  }

  lemma ColumnsParts(chs: seq<string>)
    ensures Columns(chs) == MetaColumns() + ChannelColumns(chs, ChannelFeatures) + PairColumns(Permutations(chs), PairFeatures)
    ensures |MetaColumns()| == 7
    ensures |ChannelColumns(chs, ChannelFeatures)| == 15 * |chs|
    ensures |Permutations(chs)| == |chs| * (|chs| - 1)
    ensures |PairColumns(Permutations(chs), PairFeatures)| == 16 * |Permutations(chs)|
  {
    ChannelColumnsLength(chs, ChannelFeatures);
    PermutationsFromLength(chs, 0);
    BlockStartProduct(0, |chs|, |chs| - 1);
    PairColumnsLength(Permutations(chs), PairFeatures);
  }

  /** The header has 7 + 15N + 16N(N-1) names for N channels. */
  lemma HeaderLength(chs: seq<string>)
    ensures |Header(chs)| == 7 + 15 * |chs| + 16 * (|chs| * (|chs| - 1))
  {
    ColumnsParts(chs);
  }

  /** The header starts with the seven event columns. */
  lemma HeaderStartsWithMetadata(chs: seq<string>)
    ensures |Header(chs)| >= 7
    ensures Header(chs)[..7] == ["Event #", "Start Time", "End Time", "GOES Flare Class",
                                 "Pre-Flare Start Time", "Pre-Flare End Time", "Flare Interrupt"]
  {
    ColumnsParts(chs);
    assert forall m :: 0 <= m < 7 ==> Columns(chs)[m] == Meta(MetaFields[m]);
  }

  lemma MiddleAt<T>(front: seq<T>, mid: seq<T>, back: seq<T>, j: nat)
    requires j < |mid|
    ensures |front| + j < |front + mid + back| && (front + mid + back)[|front| + j] == mid[j]
  {
  }

  /** Channel groups are feature-major, channel-minor: the s-th channel
      group lists every channel, in input order, under the s-th suffix. */
  lemma HeaderChannelAt(chs: seq<string>, s: nat, c: nat)
    requires s < |ChannelFeatures| && c < |chs|
    ensures 7 + s * |chs| + c < |Header(chs)|
    ensures Columns(chs)[7 + s * |chs| + c] == OfChannel(chs[c], ChannelFeatures[s])
    ensures Header(chs)[7 + s * |chs| + c] == chs[c] + Suffix(ChannelFeatures[s])
  {
    assert Columns(chs) == MetaColumns() + ChannelColumns(chs, ChannelFeatures) + PairColumns(Permutations(chs), PairFeatures);
    ChannelColumnsAt(chs, ChannelFeatures, s, c);
    MiddleAt(MetaColumns(), ChannelColumns(chs, ChannelFeatures), PairColumns(Permutations(chs), PairFeatures),
             s * |chs| + c);
  }

  /** Offset of the pair (channels[a], channels[b]) within one pair group. */
  function PairOffset(n: nat, a: nat, b: nat): nat
    requires a < n && b < n && a != b
  {
    a * (n - 1) + (if b < a then b else b - 1)
  }

  /** Offset of that pair within the pair groups, for feature group s. */
  function PairGroupIndex(n: nat, s: nat, a: nat, b: nat): nat
    requires a < n && b < n && a != b
  {
    s * (n * (n - 1)) + PairOffset(n, a, b)
  }

  /** Position of the column of feature group s for the pair (channels[a], channels[b]). */
  function PairColumnIndex(n: nat, s: nat, a: nat, b: nat): nat
    requires a < n && b < n && a != b
  {
    7 + 15 * n + PairGroupIndex(n, s, a, b)
  }

  /** Pair groups placed after any prefix of columns. */
  lemma PairGroupsAfter(front: seq<Column>, chs: seq<string>, features: seq<Feature>, s: nat, a: nat, b: nat)
    requires s < |features| && a < |chs| && b < |chs| && a != b
    ensures var k := |front| + PairGroupIndex(|chs|, s, a, b);
            k < |front + PairColumns(Permutations(chs), features)| &&
            (front + PairColumns(Permutations(chs), features))[k] == OfPair(chs[a], chs[b], features[s])
  {
    var perms := Permutations(chs);
    PermutationAt(chs, a, b);
    var p := PairOffset(|chs|, a, b);
    PairColumnsAt(perms, features, s, p);
    ConcatAt(front, PairColumns(perms, features), |front| + (s * |perms| + p));
  }

  lemma ColumnsPairAt(chs: seq<string>, s: nat, a: nat, b: nat)
    requires s < |PairFeatures| && a < |chs| && b < |chs| && a != b
    ensures PairColumnIndex(|chs|, s, a, b) < |Columns(chs)|
    ensures Columns(chs)[PairColumnIndex(|chs|, s, a, b)] == OfPair(chs[a], chs[b], PairFeatures[s])
  {
    var front := MetaColumns() + ChannelColumns(chs, ChannelFeatures);
    assert Columns(chs) == front + PairColumns(Permutations(chs), PairFeatures);
    ChannelColumnsLength(chs, ChannelFeatures);
    assert |front| == 7 + 15 * |chs|;
    PairGroupsAfter(front, chs, PairFeatures, s, a, b);
  }

  /** After the channel groups, the s-th pair group lists "A by B" for
      every ordered pair of distinct channels under the s-th pair suffix. */
  lemma HeaderPairAt(chs: seq<string>, s: nat, a: nat, b: nat)
    requires s < |PairFeatures| && a < |chs| && b < |chs| && a != b
    ensures PairColumnIndex(|chs|, s, a, b) < |Columns(chs)| == |Header(chs)|
    ensures Columns(chs)[PairColumnIndex(|chs|, s, a, b)] == OfPair(chs[a], chs[b], PairFeatures[s])
    ensures Header(chs)[PairColumnIndex(|chs|, s, a, b)] == chs[a] + " by " + chs[b] + Suffix(PairFeatures[s])
  {
    ColumnsPairAt(chs, s, a, b);
  }

  /** Every pair column joins two distinct channels when channel names are distinct. */
  lemma PairColumnsDistinctChannels(chs: seq<string>)
    requires forall x, y :: 0 <= x < y < |chs| ==> chs[x] != chs[y]
    ensures forall col :: col in Columns(chs) && col.OfPair? ==> col.first != col.second
  {
    var perms := Permutations(chs);
    PermutationsDistinct(chs);
    PairColumnsMembers(perms, PairFeatures);
    ChannelColumnsMembers(chs, ChannelFeatures);
  }

  lemma {:induction false} PairColumnsMembers(pairs: seq<(string, string)>, features: seq<Feature>)
    ensures forall col :: col in PairColumns(pairs, features) ==>
              col.OfPair? && (col.first, col.second) in pairs && col.feature in features
  {
    if |features| > 0 {
      PairColumnsMembers(pairs, features[1..]);
    }
  }

  lemma {:induction false} ChannelColumnsMembers(chs: seq<string>, features: seq<Feature>)
    ensures forall col :: col in ChannelColumns(chs, features) ==>
              col.OfChannel? && col.channel in chs && col.feature in features
  {
    if |features| > 0 {
      ChannelColumnsMembers(chs, features[1..]);
    }
  }
}
