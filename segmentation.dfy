/** The score digits, the three-character `RFM_Score` code and the ordered
    segment table that both RFM pages apply to every row of their `rfm`
    table (`rfm.apply(segment, axis=1)`). */
module Segmentation {

  import opened Tables

  /** A quantile score, one of the labels 1..5. */
  type Score = s: int | 1 <= s <= 5 witness 1

  datatype Segment =
    | Champions
    | LoyalCustomers
    | NewCustomers
    | CantLoseThem
    | AtRisk
    | LostCustomers
    | FrequentBuyers
    | BigSpenders
    | Others

  /** The label the `Segment` column shows. */
  function Label(s: Segment): string
  {
    match s
    case Champions => "Champions"
    case LoyalCustomers => "Loyal Customers"
    case NewCustomers => "New Customers"
    case CantLoseThem => "Can't Lose Them"
    case AtRisk => "At Risk"
    case LostCustomers => "Lost Customers"
    case FrequentBuyers => "Frequent Buyers"
    case BigSpenders => "Big Spenders"
    case Others => "Others"
  }

  /** `segment(row)`: the first rule whose condition holds, in the source's
      order. The postconditions describe the same function without any
      ordering, as the region of the (R, F, M) cube each label covers: the
      regions partition the cube and the sixth rule's region is empty. */
  function Classify(r: Score, f: Score, m: Score): (s: Segment)
    ensures s == Champions <==> r == 5 && f == 5
    ensures s == LoyalCustomers <==> r >= 4 && f >= 4 && !(r == 5 && f == 5)
    ensures s == NewCustomers <==> r == 5 && f <= 3
    ensures s == CantLoseThem <==> r <= 2 && f >= 4
    ensures s == AtRisk <==> r <= 2 && f <= 3
    ensures s != LostCustomers
    ensures s == FrequentBuyers <==> r == 3 && f >= 4
    ensures s == BigSpenders <==> 3 <= r <= 4 && f <= 3 && m >= 4
    ensures s == Others <==> 3 <= r <= 4 && f <= 3 && m <= 3
  {
    if r == 5 && f == 5 then Champions
    else if r >= 4 && f >= 4 then LoyalCustomers
    else if r == 5 && f <= 3 then NewCustomers
    else if r <= 2 && f >= 4 then CantLoseThem
    else if r <= 2 && f <= 3 then AtRisk
    else if r == 1 && f <= 2 then LostCustomers
    else if f >= 4 then FrequentBuyers
    else if m >= 4 then BigSpenders
    else Others
  }

  /** Every row the sixth rule describes has already been claimed by the
      fifth. */
  lemma LostRuleShadowedByAtRisk(r: Score, f: Score, m: Score)
    requires r == 1 && f <= 2
    ensures Classify(r, f, m) == AtRisk
  {
  }

  /** The M score is read only when R is 3 or 4 and F is at most 3; every
      other (R, F) pair has one segment whatever M is. */
  lemma MonetaryOnlyMattersInTheMiddle(r: Score, f: Score, m1: Score, m2: Score)
    ensures Classify(r, f, m1) != Classify(r, f, m2) ==> 3 <= r <= 4 && f <= 3
    ensures 3 <= r <= 4 && f <= 3 ==> (Classify(r, f, m1) == BigSpenders <==> m1 >= 4)
  {
  }

  /** The nine labels are pairwise different, so the `Segment` column tells
      the segments apart. */
  lemma LabelsDistinct(a: Segment, b: Segment)
    ensures Label(a) == Label(b) ==> a == b
  {
  }

  /** The character the `astype(str)` of a score gives. */
  function Digit(s: Score): (c: char)
    ensures '1' <= c <= '5'
  {
    ('0' as int + s) as char
  }

  /** `R_Score.astype(str) + F_Score.astype(str) + M_Score.astype(str)`. */
  function RfmCode(r: Score, f: Score, m: Score): (code: string)
    ensures |code| == 3
    ensures ParseCode(code) == Some((r, f, m))
  {
    [Digit(r), Digit(f), Digit(m)]
  }

  function ParseDigit(c: char): Option<Score>
  {
    if '1' <= c <= '5' then Some(c as int - '0' as int) else None
  }

  /** Reads an `RFM_Score` code back into its three scores, R first. */
  function ParseCode(code: string): Option<(Score, Score, Score)>
  {
    if |code| != 3 then None
    else
      match (ParseDigit(code[0]), ParseDigit(code[1]), ParseDigit(code[2]))
      case (Some(r), Some(f), Some(m)) => Some((r, f, m))
      case _ => None
  }

  /** The codes are exactly the three-digit strings over 1..5, and each reads
      back to the scores it was made from. */
  lemma CodeRoundTrip(code: string)
    ensures ParseCode(code).Some? ==> RfmCode(ParseCode(code).value.0, ParseCode(code).value.1, ParseCode(code).value.2) == code
  {
  }
}
