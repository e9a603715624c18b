/** Printed cron expressions are read back to what they say. */
module CronText {
  import opened Options
  import opened SleepWindows
  import opened Text
  import opened TextLaws
  import opened CronMigration
  import Sorting

  // ---------------------------------------------------------------- one element

  lemma {:induction false} DecimalDigits(n: nat, c: char)
    requires !IsDigit(c)
    ensures c !in DecimalText(n)
  {
    assert forall i :: 0 <= i < |DecimalText(n)| ==> IsDigit(DecimalText(n)[i]);
  }

  /** A number names its day, and a range names the days from its first to its last. */
  lemma ReadsNumber(n: nat)
    requires n <= MAX_INT
    ensures ReadPart(DecimalText(n)) == Days(n, n)
  {
    var t := DecimalText(n);
    DecimalDigits(n, '-');
    IndexOfNone(t, '-');
    assert t[..|t|] == t;
    AtoiDigits(t);
  }

  lemma ReadsRange(lo: nat, hi: nat)
    requires lo <= MAX_INT && hi <= MAX_INT
    ensures ReadPart(DecimalText(lo) + "-" + DecimalText(hi)) == Days(lo, hi)
  {
    var a, b := DecimalText(lo), DecimalText(hi);
    var t := a + "-" + b;
    DecimalDigits(lo, '-');
    IndexOfFirst(a, '-', b);
    assert t[..|a|] == a && t[|a| + 1..] == b;
    AtoiDigits(a);
    AtoiDigits(b);
  }

  // ---------------------------------------------------------------- fields

  lemma OneElement(t: string)
    requires ',' !in t
    ensures ReadParts(t) == [ReadPart(t)]
  {
    IndexOfNone(t, ',');
  }

  lemma PartsConcat(a: string, b: string)
    ensures ReadParts(a + "," + b) == ReadParts(a) + ReadParts(b)
  {
    SplitConcat(a, ',', b);
  }

  lemma NamesConcat(a: seq<Part>, b: seq<Part>, d: int)
    ensures SomePartNames(a + b, d) <==> SomePartNames(a, d) || SomePartNames(b, d)
    ensures (forall part :: part in a + b ==> part.Days?) <==> (forall part :: part in a ==> part.Days?) && forall part :: part in b ==> part.Days?
  {
    if SomePartNames(a, d) {
      var i :| 0 <= i < |a| && PartNames(a[i], d);
      assert PartNames((a + b)[i], d);
    }
    if SomePartNames(b, d) {
      var i :| 0 <= i < |b| && PartNames(b[i], d);
      assert PartNames((a + b)[|a| + i], d);
    }
    assert forall part :: part in a + b <==> part in a || part in b;
  }

  /** A list names what its elements name, and is well formed if they are. */
  lemma ListNames(a: string, b: string, d: int)
    requires a != "*" && b != "*"
    ensures FieldNames(a + "," + b, d) <==> FieldNames(a, d) || FieldNames(b, d)
    ensures WellNamed(a + "," + b) <==> WellNamed(a) && WellNamed(b)
  {
    PartsConcat(a, b);
    NamesConcat(ReadParts(a), ReadParts(b), d);
    assert a + "," + b != "*" by {
      assert |a + "," + b| == |a| + |b| + 1;
      assert |a| + |b| == 0 ==> (a + "," + b)[0] == ',';
    }
  }

  lemma NumberNames(n: nat, d: int)
    requires n <= MAX_INT
    ensures FieldNames(DecimalText(n), d) <==> d == n
    ensures WellNamed(DecimalText(n)) && DecimalText(n) != "*"
  {
    DecimalDigits(n, ',');
    DecimalDigits(n, '*');
    OneElement(DecimalText(n));
    ReadsNumber(n);
    assert SomePartNames([Days(n, n)], d) <==> PartNames([Days(n, n)][0], d);
  }

  lemma RangeNames(lo: nat, hi: nat, d: int)
    requires lo <= MAX_INT && hi <= MAX_INT
    ensures FieldNames(DecimalText(lo) + "-" + DecimalText(hi), d) <==> lo <= d <= hi
    ensures WellNamed(DecimalText(lo) + "-" + DecimalText(hi)) && DecimalText(lo) + "-" + DecimalText(hi) != "*"
  {
    var t := DecimalText(lo) + "-" + DecimalText(hi);
    DecimalDigits(lo, ',');
    DecimalDigits(hi, ',');
    assert ',' !in t;
    OneElement(t);
    ReadsRange(lo, hi);
    assert SomePartNames([Days(lo, hi)], d) <==> PartNames([Days(lo, hi)][0], d);
    assert |t| >= 3;
  }

  /** A star names all days of the week. */
  lemma StarNames(d: int)
    ensures FieldNames("*", d) <==> 0 <= d < 7
    ensures WellNamed("*")
  {
  }

  // ---------------------------------------------------------------- round trips

  datatype Piece = One(day: nat) | Range(lo: nat, hi: nat)

  predicate Small(piece: Piece) {
    match piece
    case One(day) => day <= MAX_INT
    case Range(lo, hi) => lo <= MAX_INT && hi <= MAX_INT
  }

  function PieceText(piece: Piece): string {
    match piece
    case One(day) => DecimalText(day)
    case Range(lo, hi) => DecimalText(lo) + "-" + DecimalText(hi)
  }

  predicate PieceHas(piece: Piece, d: int) {
    match piece
    case One(day) => d == day
    case Range(lo, hi) => lo <= d <= hi
  }

  function FieldText(pieces: seq<Piece>): string
    requires pieces != []
  {
    if |pieces| == 1 then PieceText(pieces[0]) else PieceText(pieces[0]) + "," + FieldText(pieces[1..])
  }

  ghost predicate Has(pieces: seq<Piece>, d: int) {
    exists i :: 0 <= i < |pieces| && PieceHas(pieces[i], d)
  }

  /** A printed list of days and ranges names exactly these. */
  lemma {:induction false} FieldRoundTrip(pieces: seq<Piece>, d: int)
    requires pieces != [] && forall i :: 0 <= i < |pieces| ==> Small(pieces[i])
    ensures FieldNames(FieldText(pieces), d) <==> Has(pieces, d)
    ensures WellNamed(FieldText(pieces)) && FieldText(pieces) != "*"
  {
    var first := PieceText(pieces[0]);
    assert Small(pieces[0]);
    if pieces[0].One? {
      NumberNames(pieces[0].day, d);
    } else {
      RangeNames(pieces[0].lo, pieces[0].hi, d);
    }
    if |pieces| > 1 {
      var rest := pieces[1..];
      assert forall i :: 0 <= i < |rest| ==> rest[i] == pieces[i + 1];
      FieldRoundTrip(rest, d);
      ListNames(first, FieldText(rest), d);
      if Has(rest, d) {
        var i :| 0 <= i < |rest| && PieceHas(rest[i], d);
        assert PieceHas(pieces[i + 1], d);
      }
      if Has(pieces, d) && !PieceHas(pieces[0], d) {
        var i :| 0 <= i < |pieces| && PieceHas(pieces[i], d);
        assert PieceHas(rest[i - 1], d);
      }
      assert first + "," + FieldText(rest) != "*" by {
        assert |first| >= 1;
      }
    }
  }

  lemma {:induction false} FieldWithoutSpaces(pieces: seq<Piece>)
    requires pieces != []
    ensures NoSpaces(FieldText(pieces)) && FieldText(pieces) != ""
  {
    PieceWithoutSpaces(pieces[0]);
    if |pieces| > 1 {
      FieldWithoutSpaces(pieces[1..]);
    }
  }

  lemma PieceWithoutSpaces(piece: Piece)
    ensures NoSpaces(PieceText(piece)) && PieceText(piece) != ""
  {
  }

  /** minute, hour, two stars, days. */
  function CronText(minute: nat, hour: nat, days: string): string {
    DecimalText(minute) + " " + (DecimalText(hour) + " " + ("* " + ("* " + days)))
  }

  lemma CronFields(minute: nat, hour: nat, days: string)
    requires NoSpaces(days) && days != ""
    ensures Fields(CronText(minute, hour, days)) == [DecimalText(minute), DecimalText(hour), "*", "*", days]
  {
    var m, h := DecimalText(minute), DecimalText(hour);
    FieldsLaw(days, "*", ' ', days);
    FieldsLaw("*", "*", ' ', "* " + days);
    assert "*" + [' '] + days == "* " + days;
    assert "*" + [' '] + ("* " + days) == "* " + ("* " + days);
    FieldsLaw(h, h, ' ', "* " + ("* " + days));
    FieldsLaw(m, m, ' ', h + " " + ("* " + ("* " + days)));
  }

  lemma CronReads(minute: nat, hour: nat, days: string, c: Cron)
    requires minute <= MAX_INT && hour <= MAX_INT && NoSpaces(days) && days != ""
    ensures Reads(CronText(minute, hour, days), c) <==>
            c.minute == minute && c.hour == hour && WellNamed(days) && Sorting.Unique(c.days) &&
            forall d :: d in c.days <==> FieldNames(days, d)
  {
    CronFields(minute, hour, days);
    AtoiDigits(DecimalText(minute));
    AtoiDigits(DecimalText(hour));
  }

  lemma FieldMeans(pieces: seq<Piece>)
    requires pieces != [] && forall i :: 0 <= i < |pieces| ==> Small(pieces[i])
    ensures WellNamed(FieldText(pieces)) && forall d :: FieldNames(FieldText(pieces), d) <==> Has(pieces, d)
  {
    FieldRoundTrip(pieces, 0);
    forall d
      ensures FieldNames(FieldText(pieces), d) <==> Has(pieces, d)
    {
      FieldRoundTrip(pieces, d);
    }
  }

  ghost predicate SaysPieces(c: Cron, minute: nat, hour: nat, pieces: seq<Piece>) {
    c.minute == minute && c.hour == hour && Sorting.Unique(c.days) && forall d :: d in c.days <==> Has(pieces, d)
  }

  /** A printed expression with a list of days and ranges is read to exactly its minute, hour and days. */
  lemma CronRoundTrip(minute: nat, hour: nat, pieces: seq<Piece>, c: Cron)
    requires minute <= MAX_INT && hour <= MAX_INT
    requires pieces != [] && forall i :: 0 <= i < |pieces| ==> Small(pieces[i])
    ensures Reads(CronText(minute, hour, FieldText(pieces)), c) <==> SaysPieces(c, minute, hour, pieces)
  {
    FieldWithoutSpaces(pieces);
    CronReads(minute, hour, FieldText(pieces), c);
    FieldMeans(pieces);
  }

  /** And with a star to all days of the week. */
  lemma StarRoundTrip(minute: nat, hour: nat, c: Cron)
    requires minute <= MAX_INT && hour <= MAX_INT
    ensures Reads(CronText(minute, hour, "*"), c) <==>
            c.minute == minute && c.hour == hour && Sorting.Unique(c.days) && forall d :: d in c.days <==> 0 <= d < 7
  {
    CronReads(minute, hour, "*", c);
  }
}
