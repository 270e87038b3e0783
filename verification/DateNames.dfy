/**
 The file names the migration accepts and proposes: `YYYY-MM-DD[_N].ext` becomes
 `YYYY-MM-DD_HH-MM-SS[_N].ext`.
 */
module DateNames {
  import opened LineLog

  predicate Digit(c: char) {
    '0' <= c <= '9'
  }

  predicate AlphaNumeric(c: char) {
    Digit(c) || 'a' <= c <= 'z' || 'A' <= c <= 'Z'
  }

  predicate Digits(s: string) {
    |s| > 0 && forall i :: 0 <= i < |s| ==> Digit(s[i])
  }

  predicate DateShape(s: string) {
    && |s| == 10
    && Digits(s[..4]) && s[4] == '-' && Digits(s[5..7]) && s[7] == '-' && Digits(s[8..])
  }

  predicate SecondShape(s: string) {
    && |s| == 19
    && DateShape(s[..10]) && s[10] == 'T'
    && Digits(s[11..13]) && s[13] == ':' && Digits(s[14..16]) && s[16] == ':' && Digits(s[17..])
  }

  function IndexOf(s: string, c: char): (k: int)
    ensures -1 <= k < |s|
    ensures k >= 0 ==> s[k] == c
  {
    if s == [] then -1
    else if s[0] == c then 0
    else
      var k := IndexOf(s[1..], c);
      if k < 0 then -1 else k + 1
  }

  /** The date and extension of a date-only name. */
  function DateOnly(name: string): Option<(string, string)>
  {
    if |name| < 10 || !DateShape(name[..10]) then None
    else
      var rest := name[10..];
      var dot := IndexOf(rest, '.');
      if dot < 0 then None
      else
        var counter, ext := rest[..dot], rest[dot..];
        if (counter == [] || (counter[0] == '_' && Digits(counter[1..]))) &&
           |ext| > 1 && (forall i :: 1 <= i < |ext| ==> AlphaNumeric(ext[i]))
        then Some((name[..10], ext)) else None
  }

  function DigitValue(c: char): nat {
    if Digit(c) then c as int - '0' as int else 0
  }

  function Number(s: string): nat {
    if s == [] then 0 else Number(s[..|s| - 1]) * 10 + DigitValue(s[|s| - 1])
  }

  function DaysIn(year: nat, month: nat): nat {
    if month == 2 then
      (if year % 4 == 0 && (year % 100 != 0 || year % 400 == 0) then 29 else 28)
    else if month in {4, 6, 9, 11} then 30
    else 31
  }

  /** The whole-second timestamp names a moment of the calendar. */
  predicate RealMoment(s: string)
    requires SecondShape(s)
  {
    var year, month, day := Number(s[..4]), Number(s[5..7]), Number(s[8..10]);
    && year >= 1 && 1 <= month <= 12 && 1 <= day <= DaysIn(year, month)
    && Number(s[11..13]) < 24 && Number(s[14..16]) < 60 && Number(s[17..]) < 60
  }

  datatype Proposal = Proposal(stem: string, ext: string)

  /** The name a selected time gives a date-only source, split before its extension. */
  function SelectedName(name: string, selected: string): Option<Proposal>
  {
    var source := DateOnly(name);
    if source.Some? && SecondShape(selected) && selected[..10] == source.value.0 && RealMoment(selected)
    then Some(Proposal(source.value.0 + "_" + selected[11..13] + "-" + selected[14..16] + "-" + selected[17..],
                       source.value.1))
    else None
  }

  /** Decimal text, as an f-string prints it. */
  function Decimal(n: nat): (s: string)
    ensures Digits(s)
    ensures Number(s) == n
  {
    var last := [('0' as int + n % 10) as char];
    if n < 10 then
      assert last[..0] == [];
      last
    else
      var front := Decimal(n / 10);
      assert (front + last)[..|front|] == front;
      front + last
  }

  /** The names tried for one file: the proposal itself, then `stem_1`, `stem_2`, ... */
  function Candidate(p: Proposal, counter: nat): string {
    if counter == 0 then p.stem + p.ext else p.stem + "_" + Decimal(counter) + p.ext
  }

  /** What validation accepts as a target name for the proposal. */
  predicate Accepted(p: Proposal, name: string) {
    || name == p.stem + p.ext
    || (&& |name| > |p.stem| + 1 + |p.ext|
        && name[..|p.stem|] == p.stem && name[|p.stem|] == '_'
        && name[|name| - |p.ext|..] == p.ext
        && Digits(name[|p.stem| + 1..|name| - |p.ext|]))
  }

  lemma CandidateAccepted(p: Proposal, counter: nat)
    ensures Accepted(p, Candidate(p, counter))
  {
    if counter > 0 {
      var name, digits := Candidate(p, counter), Decimal(counter);
      assert name[..|p.stem|] == p.stem;
      assert name[|p.stem| + 1..|name| - |p.ext|] == digits;
      assert name[|name| - |p.ext|..] == p.ext;
    }
  }

  /** Different counters give different names, so a finite directory cannot take them all. */
  lemma CandidatesDistinct(p: Proposal, a: nat, b: nat)
    requires Candidate(p, a) == Candidate(p, b)
    ensures a == b
  {
    var x, y := Candidate(p, a), Candidate(p, b);
    var n := |p.stem|;
    if a > 0 && b > 0 {
      assert x[n + 1..|x| - |p.ext|] == Decimal(a);
      assert y[n + 1..|y| - |p.ext|] == Decimal(b);
      assert Decimal(a) == Decimal(b);
      assert Number(Decimal(a)) == Number(Decimal(b));
    }
  }
}
