/**
 * The build-name generator: a fixed template whose `{hash}`, `{datetime}`,
 * `{branch}` and `{shortname}` placeholders are filled, in that order, from
 * the resolved commit, the UTC date, the ref with the run number, and a
 * short name made of the month and day and a word chosen from the partly
 * filled template. `{project-name}`, `{platform}` and `{configuration}` are
 * left for a later consumer.
 *
 * The word chooser is not part of this model: it is the parameter `word`.
 */
module BuildNames {
  import opened Wrappers
  import opened Strings
  import opened Types

  const ProjectNameKey := "{project-name}"
  const DateTimeKey := "{datetime}"
  const HashKey := "{hash}"
  const ShortNameKey := "{shortname}"
  const PlatformKey := "{platform}"
  const ConfigurationKey := "{configuration}"
  const BranchKey := "{branch}"

  /** `{project-name}-{datetime}-{hash}-{shortname}+{platform}+{configuration}+{branch}` */
  const Template := ProjectNameKey + "-" + DateTimeKey + "-" + HashKey + "-" + ShortNameKey
                    + "+" + PlatformKey + "+" + ConfigurationKey + "+" + BranchKey

  /** `n.toString().padStart(2, '0')`. */
  function TwoDigits(n: nat): string {
    PadStart(NatToString(n), 2, '0')
  }

  /** `YYMMDD-hhmmss`, the year taken modulo 100 and the month counted from 1. */
  function LongDate(d: UtcDate): string {
    TwoDigits(d.fullYear % 100) + TwoDigits(d.month + 1) + TwoDigits(d.day) + "-"
    + TwoDigits(d.hours) + TwoDigits(d.minutes) + TwoDigits(d.seconds)
  }

  /** `MMDD`. */
  function ShortDate(d: UtcDate): string {
    TwoDigits(d.month + 1) + TwoDigits(d.day)
  }

  /** `commit.substr(0, 7).toLowerCase()`: a shorter commit is used whole. */
  function ShortHash(commit: string): (h: string)
    ensures |h| == if |commit| < 7 then |commit| else 7
    ensures forall i :: 0 <= i < |h| ==> h[i] == LowerChar(commit[i])
  {
    ToLower(commit[..if |commit| < 7 then |commit| else 7])
  }

  /** The ref followed by the run number, with no separator; an unset
      `GITHUB_RUN_NUMBER` renders as `undefined`. */
  function NumberedBranch(ref: string, runNumber: Option<string>): string {
    ref + Interpolated(runNumber)
  }

  /** `generate`: the template filled step by step, each placeholder at its first occurrence. */
  function Generate(desc: BuildDescription, runNumber: Option<string>, word: string -> string): BuildName {
    var longDate := LongDate(desc.date);
    var shortDate := ShortDate(desc.date);
    var gitHash := ShortHash(desc.commit);
    var withHash := ReplaceFirst(Template, HashKey, gitHash);
    var withDate := ReplaceFirst(withHash, DateTimeKey, longDate);
    var withBranch := ReplaceFirst(withDate, BranchKey, NumberedBranch(desc.ref, runNumber));
    var shortName := shortDate + word(withBranch);
    BuildName(ReplaceFirst(withBranch, ShortNameKey, shortName), shortName)
  }

  // ---------------------------------------------------------------------------
  // Dates

  lemma TwoDigitsAreDigits(n: nat)
    ensures AllDigits(TwoDigits(n))
  {
  }

  /** Below 100 a number is rendered as exactly two digits, zero-padded, and reads back as itself. */
  lemma TwoDigitsOfSmall(n: nat)
    requires n < 100
    ensures TwoDigits(n) == [DigitChar(n / 10), DigitChar(n % 10)]
    ensures ParseDecimal(TwoDigits(n)) == n
  {
    var s := TwoDigits(n);
    if n < 10 {
      assert NatToString(n) == [DigitChar(n)];
      assert s == ['0', DigitChar(n)];
    } else {
      assert NatToString(n / 10) == [DigitChar(n / 10)];
      assert NatToString(n) == [DigitChar(n / 10), DigitChar(n % 10)];
    }
    assert s[..1] == [s[0]];
    assert ParseDecimal(s[..1][..0]) == 0;
  }

  lemma TwoDigitsReadBack(n: nat)
    requires n < 100
    ensures |TwoDigits(n)| == 2 && AllDigits(TwoDigits(n)) && ParseDecimal(TwoDigits(n)) == n
  {
    TwoDigitsOfSmall(n);
  }

  lemma DateLayoutOfParts(yy: string, mo: string, dd: string, hh: string, mi: string, ss: string)
    requires |yy| == 2 && |mo| == 2 && |dd| == 2 && |hh| == 2 && |mi| == 2 && |ss| == 2
    ensures var l := yy + mo + dd + "-" + hh + mi + ss;
      && |l| == 13 && l[6] == '-'
      && l[0..2] == yy && l[2..4] == mo && l[4..6] == dd && l[2..6] == mo + dd
      && l[7..9] == hh && l[9..11] == mi && l[11..13] == ss
  {
    var l := yy + mo + dd + "-" + hh + mi + ss;
    assert l[0..6] == yy + mo + dd;
    assert l[7..13] == hh + mi + ss;
  }

  /** `l` is `YYMMDD-hhmmss`, each field two digits reading back as the UTC value of
      `d`, and `short` is its `MMDD` part. */
  predicate DateLayout(l: string, short: string, d: UtcDate) {
    && |l| == 13 && l[6] == '-'
    && AllDigits(l[0..2]) && AllDigits(l[2..4]) && AllDigits(l[4..6])
    && AllDigits(l[7..9]) && AllDigits(l[9..11]) && AllDigits(l[11..13])
    && ParseDecimal(l[0..2]) == d.fullYear % 100
    && ParseDecimal(l[2..4]) == d.month + 1
    && ParseDecimal(l[4..6]) == d.day
    && ParseDecimal(l[7..9]) == d.hours
    && ParseDecimal(l[9..11]) == d.minutes
    && ParseDecimal(l[11..13]) == d.seconds
    && short == l[2..6]
  }

  /** The long date is 13 characters, `YYMMDD-hhmmss`, each field reading back
      as the UTC value it renders; the short date is its `MMDD` part. */
  lemma LongDateLayout(d: UtcDate)
    requires ValidUtcDate(d)
    ensures DateLayout(LongDate(d), ShortDate(d), d)
  {
    var yy, mo, dd := TwoDigits(d.fullYear % 100), TwoDigits(d.month + 1), TwoDigits(d.day);
    var hh, mi, ss := TwoDigits(d.hours), TwoDigits(d.minutes), TwoDigits(d.seconds);
    TwoDigitsReadBack(d.fullYear % 100);
    TwoDigitsReadBack(d.month + 1);
    TwoDigitsReadBack(d.day);
    TwoDigitsReadBack(d.hours);
    TwoDigitsReadBack(d.minutes);
    TwoDigitsReadBack(d.seconds);
    DateLayoutOfParts(yy, mo, dd, hh, mi, ss);
  }

  lemma LongDateHasNoBrace(d: UtcDate)
    ensures '{' !in LongDate(d)
  {
    TwoDigitsAreDigits(d.fullYear % 100);
    TwoDigitsAreDigits(d.month + 1);
    TwoDigitsAreDigits(d.day);
    TwoDigitsAreDigits(d.hours);
    TwoDigitsAreDigits(d.minutes);
    TwoDigitsAreDigits(d.seconds);
  }

  // ---------------------------------------------------------------------------
  // The filled template
  //
  // The substitution is first proved for a template built from arbitrary
  // placeholder strings `p-d-hk-s+pl+c+bk`, and then instantiated with the
  // real ones.

  lemma NotInDashed(pat: string, x: string, y: string)
    requires '-' !in pat && NotIn(pat, x) && NotIn(pat, y)
    ensures NotIn(pat, x + "-" + y)
  {
    NotInAcrossSeparator(pat, x, '-', y);
  }


  lemma NotInEndingWith(pat: string, x: string, c: char)
    requires pat != [] && c !in pat && NotIn(pat, x)
    ensures NotIn(pat, x + [c])
  {
    NotInAcrossSeparator(pat, x, c, "");
    assert x + [c] + "" == x + [c];
  }

  // The four substitutions of `generate` on a template made of arbitrary
  // placeholders, given that no placeholder occurs before its own place.

  lemma FillHashStep(p: string, d: string, hk: string, s: string, pl: string, c: string, bk: string, h: string)
    requires OpensOnce(hk) && NotIn(hk, p + "-" + d + "-")
    ensures ReplaceFirst(p + "-" + d + "-" + hk + "-" + s + "+" + pl + "+" + c + "+" + bk, hk, h)
            == p + "-" + d + "-" + h + "-" + s + "+" + pl + "+" + c + "+" + bk
  {
    var a, r := p + "-" + d + "-", "-" + s + "+" + pl + "+" + c + "+" + bk;
    Regroup8(a + hk, "-", s, "+", pl, "+", c, "+", bk);
    Regroup8(a + h, "-", s, "+", pl, "+", c, "+", bk);
    ReplaceFirstAfter(a, hk, r, h);
  }

  lemma FillDateStep(p: string, d: string, h: string, s: string, pl: string, c: string, bk: string, l: string)
    requires OpensOnce(d) && NotIn(d, p + "-")
    ensures ReplaceFirst(p + "-" + d + "-" + h + "-" + s + "+" + pl + "+" + c + "+" + bk, d, l)
            == p + "-" + l + "-" + h + "-" + s + "+" + pl + "+" + c + "+" + bk
  {
    var a, r := p + "-", "-" + h + "-" + s + "+" + pl + "+" + c + "+" + bk;
    Regroup10(a + d, "-", h, "-", s, "+", pl, "+", c, "+", bk);
    Regroup10(a + l, "-", h, "-", s, "+", pl, "+", c, "+", bk);
    ReplaceFirstAfter(a, d, r, l);
  }

  lemma Assoc(x: string, y: string, z: string)
    ensures x + y + z == x + (y + z)
  {
  }

  /** `x` followed by eight pieces is `x` followed by their concatenation. */
  lemma Regroup8(x: string, q1: string, q2: string, q3: string, q4: string, q5: string, q6: string, q7: string, q8: string)
    ensures x + q1 + q2 + q3 + q4 + q5 + q6 + q7 + q8 == x + (q1 + q2 + q3 + q4 + q5 + q6 + q7 + q8)
  {
    Assoc(x, q1, q2);
    Assoc(x, q1 + q2, q3);
    Assoc(x, q1 + q2 + q3, q4);
    Assoc(x, q1 + q2 + q3 + q4, q5);
    Assoc(x, q1 + q2 + q3 + q4 + q5, q6);
    Assoc(x, q1 + q2 + q3 + q4 + q5 + q6, q7);
    Assoc(x, q1 + q2 + q3 + q4 + q5 + q6 + q7, q8);
  }

  lemma Regroup10(x: string, q1: string, q2: string, q3: string, q4: string, q5: string, q6: string, q7: string, q8: string, q9: string, q10: string)
    ensures x + q1 + q2 + q3 + q4 + q5 + q6 + q7 + q8 + q9 + q10 == x + (q1 + q2 + q3 + q4 + q5 + q6 + q7 + q8 + q9 + q10)
  {
    Regroup8(x, q1, q2, q3, q4, q5, q6, q7, q8);
    Assoc(x, q1 + q2 + q3 + q4 + q5 + q6 + q7 + q8, q9);
    Assoc(x, q1 + q2 + q3 + q4 + q5 + q6 + q7 + q8 + q9, q10);
  }

  lemma FillBranchStep(x: string, bk: string, b: string)
    requires OpensOnce(bk) && NotIn(bk, x)
    ensures ReplaceFirst(x + bk, bk, b) == x + b
  {
    assert x + bk == x + bk + "";
    ReplaceFirstAfter(x, bk, "", b);
    assert x + b + "" == x + b;
  }

  lemma FillShortStep(x: string, s: string, pl: string, c: string, b: string, sn: string)
    requires OpensOnce(s) && NotIn(s, x)
    ensures ReplaceFirst(x + s + "+" + pl + "+" + c + "+" + b, s, sn) == x + sn + "+" + pl + "+" + c + "+" + b
  {
    var r := "+" + pl + "+" + c + "+" + b;
    assert x + s + "+" + pl + "+" + c + "+" + b == x + s + r;
    ReplaceFirstAfter(x, s, r, sn);
    assert x + sn + r == x + sn + "+" + pl + "+" + c + "+" + b;
  }

  /** Where each placeholder of the real template may not occur. */
  lemma PlaceholdersApart(l: string, h: string)
    requires '{' !in l && |h| <= 7
    ensures OpensOnce(HashKey) && OpensOnce(DateTimeKey) && OpensOnce(BranchKey) && OpensOnce(ShortNameKey)
    ensures NotIn(HashKey, ProjectNameKey + "-" + DateTimeKey + "-")
    ensures NotIn(DateTimeKey, ProjectNameKey + "-")
    ensures NotIn(BranchKey, ProjectNameKey + "-" + l + "-" + h + "-" + ShortNameKey + "+" + PlatformKey + "+" + ConfigurationKey + "+")
    ensures NotIn(ShortNameKey, ProjectNameKey + "-" + l + "-" + h + "-")
  {
    NotInOtherToken(HashKey, ProjectNameKey);
    NotInOtherToken(HashKey, DateTimeKey);
    NotInDashed(HashKey, ProjectNameKey, DateTimeKey);
    NotInEndingWith(HashKey, ProjectNameKey + "-" + DateTimeKey, '-');
    NotInOtherToken(DateTimeKey, ProjectNameKey + "-");
    BranchKeyApart(l, h);
    HeadFree(ShortNameKey, l, h);
    NotInEndingWith(ShortNameKey, ProjectNameKey + "-" + l + "-" + h, '-');
  }

  lemma BranchKeyApart(l: string, h: string)
    requires '{' !in l && |h| <= 7
    ensures NotIn(BranchKey, ProjectNameKey + "-" + l + "-" + h + "-" + ShortNameKey + "+" + PlatformKey + "+" + ConfigurationKey + "+")
  {
    var x := ProjectNameKey + "-" + l + "-" + h;
    HeadFree(BranchKey, l, h);
    NotInOtherToken(BranchKey, ShortNameKey);
    NotInOtherToken(BranchKey, PlatformKey);
    NotInOtherToken(BranchKey, ConfigurationKey);
    NotInDashed(BranchKey, x, ShortNameKey);
    NotInAcrossSeparator(BranchKey, x + "-" + ShortNameKey, '+', PlatformKey);
    NotInAcrossSeparator(BranchKey, x + "-" + ShortNameKey + "+" + PlatformKey, '+', ConfigurationKey);
    NotInEndingWith(BranchKey, x + "-" + ShortNameKey + "+" + PlatformKey + "+" + ConfigurationKey, '+');
  }

  lemma HeadFree(pat: string, l: string, h: string)
    requires |pat| > 7 && pat[0] == '{' && '-' !in pat && pat[1] != ProjectNameKey[1] && '{' !in pat[1..]
    requires '{' !in l && |h| <= 7
    ensures NotIn(pat, ProjectNameKey + "-" + l + "-" + h)
  {
    NotInOtherToken(pat, ProjectNameKey);
    NotInWithoutOpening(pat, l);
    NotInDashed(pat, ProjectNameKey, l);
    NotInDashed(pat, ProjectNameKey + "-" + l, h);
  }

  /** Closed form of `generate`: only its own four placeholders are filled, each
      where the template has it, and the word is drawn from the template with
      hash, date and branch in but the short name not yet. */
  lemma GenerateClosedForm(desc: BuildDescription, runNumber: Option<string>, word: string -> string)
    ensures var n := Generate(desc, runNumber, word);
      var head := ProjectNameKey + "-" + LongDate(desc.date) + "-" + ShortHash(desc.commit) + "-";
      var branch := NumberedBranch(desc.ref, runNumber);
      && n.short == ShortDate(desc.date) + word(head + ShortNameKey + "+" + PlatformKey + "+" + ConfigurationKey + "+" + branch)
      && n.template == head + n.short + "+" + PlatformKey + "+" + ConfigurationKey + "+" + branch
  {
    var l := LongDate(desc.date);
    var h := ShortHash(desc.commit);
    var b := NumberedBranch(desc.ref, runNumber);
    LongDateHasNoBrace(desc.date);
    PlaceholdersApart(l, h);
    FillHashStep(ProjectNameKey, DateTimeKey, HashKey, ShortNameKey, PlatformKey, ConfigurationKey, BranchKey, h);
    FillDateStep(ProjectNameKey, DateTimeKey, h, ShortNameKey, PlatformKey, ConfigurationKey, BranchKey, l);
    var x := ProjectNameKey + "-" + l + "-" + h + "-" + ShortNameKey + "+" + PlatformKey + "+" + ConfigurationKey + "+";
    FillBranchStep(x, BranchKey, b);
    var sn := ShortDate(desc.date) + word(x + b);
    FillShortStep(ProjectNameKey + "-" + l + "-" + h + "-", ShortNameKey, PlatformKey, ConfigurationKey, b, sn);
  }

  /** Where the pieces of a filled template lie. */
  lemma FilledPieces(t: string, head: string, m: string, pl: string, c: string, b: string)
    requires t == head + m + "+" + pl + "+" + c + "+" + b
    ensures |head| <= |t| && t[..|head|] == head && StartsWith(t[|head|..], m)
    ensures var back := "+" + pl + "+" + c + "+" + b;
      |back| <= |t| && t[|t| - |back|..] == back
  {
    var back := "+" + pl + "+" + c + "+" + b;
    assert t == head + (m + back);
    assert t[|head|..] == m + back;
    assert t == (head + m) + back;
  }

  lemma PrefixOfConcat(a: string, b: string)
    ensures (a + b)[..|a|] == a
  {
  }

  /** The short name appears verbatim in the template, right after the hash. */
  lemma ShortNameInTemplate(desc: BuildDescription, runNumber: Option<string>, word: string -> string)
    ensures var n := Generate(desc, runNumber, word);
      var head := ProjectNameKey + "-" + LongDate(desc.date) + "-" + ShortHash(desc.commit) + "-";
      |head| <= |n.template| && StartsWith(n.template[|head|..], n.short)
  {
    GenerateClosedForm(desc, runNumber, word);
    var n := Generate(desc, runNumber, word);
    var head := ProjectNameKey + "-" + LongDate(desc.date) + "-" + ShortHash(desc.commit) + "-";
    FilledPieces(n.template, head, n.short, PlatformKey, ConfigurationKey, NumberedBranch(desc.ref, runNumber));
  }

  /** The template begins with the project-name placeholder, the long date and
      the short hash, and ends with the numbered branch. */
  lemma TemplateSegments(desc: BuildDescription, runNumber: Option<string>, word: string -> string)
    ensures var n := Generate(desc, runNumber, word);
      var front := ProjectNameKey + "-" + LongDate(desc.date) + "-" + ShortHash(desc.commit) + "-";
      var branch := NumberedBranch(desc.ref, runNumber);
      && StartsWith(n.template, front)
      && EndsWith(n.template, "+" + PlatformKey + "+" + ConfigurationKey + "+" + branch)
      && StartsWith(n.short, ShortDate(desc.date))
  {
    GenerateClosedForm(desc, runNumber, word);
    var n := Generate(desc, runNumber, word);
    var front := ProjectNameKey + "-" + LongDate(desc.date) + "-" + ShortHash(desc.commit) + "-";
    FilledPieces(n.template, front, n.short, PlatformKey, ConfigurationKey, NumberedBranch(desc.ref, runNumber));
    assert n.short[..|ShortDate(desc.date)|] == ShortDate(desc.date);
  }

  /** Changing only the run number leaves everything before the short name,
      and the short date, as they were. */
  lemma RunNumberOnlyMovesBranchAndWord(desc: BuildDescription, r1: Option<string>, r2: Option<string>, word: string -> string)
    ensures var n1 := Generate(desc, r1, word);
      var n2 := Generate(desc, r2, word);
      var head := ProjectNameKey + "-" + LongDate(desc.date) + "-" + ShortHash(desc.commit) + "-";
      var sd := |ShortDate(desc.date)|;
      && |head| <= |n1.template| && |head| <= |n2.template| && n1.template[..|head|] == n2.template[..|head|]
      && sd <= |n1.short| && sd <= |n2.short| && n1.short[..sd] == n2.short[..sd]
  {
    GenerateClosedForm(desc, r1, word);
    GenerateClosedForm(desc, r2, word);
    var n1 := Generate(desc, r1, word);
    var n2 := Generate(desc, r2, word);
    var head := ProjectNameKey + "-" + LongDate(desc.date) + "-" + ShortHash(desc.commit) + "-";
    FilledPieces(n1.template, head, n1.short, PlatformKey, ConfigurationKey, NumberedBranch(desc.ref, r1));
    FilledPieces(n2.template, head, n2.short, PlatformKey, ConfigurationKey, NumberedBranch(desc.ref, r2));
    PrefixOfConcat(ShortDate(desc.date), n1.short[|ShortDate(desc.date)|..]);
  }

  /** The worked example: ref `main`, commit `abc1234ffffffff`, 2024-03-07T14:05:09Z, run 42. */
  lemma ExampleDate()
    ensures LongDate(UtcDate(2024, 2, 7, 14, 5, 9)) == "240307-140509"
    ensures ShortDate(UtcDate(2024, 2, 7, 14, 5, 9)) == "0307"
  {
    var d := UtcDate(2024, 2, 7, 14, 5, 9);
    assert d.fullYear % 100 == 24 && d.month + 1 == 3;
    ExampleTwoDigits(24, '2', '4');
    ExampleTwoDigits(3, '0', '3');
    ExampleTwoDigits(7, '0', '7');
    ExampleTwoDigits(14, '1', '4');
    ExampleTwoDigits(5, '0', '5');
    ExampleTwoDigits(9, '0', '9');
    assert LongDate(d) == "24" + "03" + "07" + "-" + "14" + "05" + "09";
  }

  lemma ExampleTwoDigits(n: nat, hi: char, lo: char)
    requires n < 100 && hi == DigitChar(n / 10) && lo == DigitChar(n % 10)
    ensures TwoDigits(n) == [hi, lo]
  {
    TwoDigitsOfSmall(n);
  }

  lemma ExampleHash()
    ensures ShortHash("abc1234ffffffff") == "abc1234"
  {
  }

  /** The short name starts with the short date, and the template ends with `+` and the numbered branch. */
  lemma GenerateEnds(desc: BuildDescription, runNumber: Option<string>, word: string -> string)
    ensures var n := Generate(desc, runNumber, word);
      StartsWith(n.short, ShortDate(desc.date)) && EndsWith(n.template, "+" + NumberedBranch(desc.ref, runNumber))
  {
    TemplateSegments(desc, runNumber, word);
    var n := Generate(desc, runNumber, word);
    EndsWithLastPiece(n.template, PlatformKey, ConfigurationKey, NumberedBranch(desc.ref, runNumber));
  }

  lemma EndsWithLastPiece(t: string, pl: string, c: string, b: string)
    requires EndsWith(t, "+" + pl + "+" + c + "+" + b)
    ensures EndsWith(t, "+" + b)
  {
    var back := "+" + pl + "+" + c + "+" + b;
    assert back == ("+" + pl + "+" + c) + ("+" + b);
    assert back[|back| - |"+" + b|..] == "+" + b;
  }

  /** The worked example, generated in full. */
  lemma GenerateExample(desc: BuildDescription, word: string -> string)
    requires desc == BuildDescription("main", "abc1234ffffffff", UtcDate(2024, 2, 7, 14, 5, 9))
    ensures var n := Generate(desc, Some("42"), word);
      && StartsWith(n.short, "0307")
      && EndsWith(n.template, "+main42")
  {
    ExampleDate();
    GenerateEnds(desc, Some("42"), word);
    assert "+" + NumberedBranch(desc.ref, Some("42")) == "+main42";
  }
}
