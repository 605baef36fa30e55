/** The grammars of project paths, repository references and issue references, and the parsers that read them. */
module RepoRefs {
  import opened Prelude
  import opened Text

  const GITHUB := "github"
  const GITLAB := "gitlab"
  const AZURE_DEVOPS := "azure_devops"

  const ADO_PATH_PARTS := 3

  predicate Supported(provider: string) {
    provider == GITHUB || provider == GITLAB || provider == AZURE_DEVOPS
  }

  // ----- project paths -----

  predicate IsAlnum(c: char) {
    'A' <= c <= 'Z' || 'a' <= c <= 'z' || IsDigit(c)
  }

  predicate SegmentChar(c: char) {
    IsAlnum(c) || c == '_' || c == '.' || c == '-'
  }

  predicate Segment(s: string) {
    && (forall i :: 0 <= i < |s| ==> SegmentChar(s[i]))
    && (exists i :: 0 <= i < |s| && IsAlnum(s[i]))
  }

  /** `s.split(c)` */
  function Split(s: string, c: char): (parts: seq<string>)
    ensures |parts| > 0
    decreases |s|
  {
    match Partition(s, c)
    case None => [s]
    case Some((h, t)) => [h] + Split(t, c)
  }

  /** Two or more segments between slashes. */
  predicate ProjectPath(s: string) {
    |Split(s, '/')| >= 2 && forall i :: 0 <= i < |Split(s, '/')| ==> Segment(Split(s, '/')[i])
  }

  /** `"/".join(parts)` */
  function Slashed(parts: seq<string>): string
    requires parts != []
  {
    if |parts| == 1 then parts[0] else parts[0] + ['/'] + Slashed(parts[1..])
  }

  lemma {:induction false} SplitOfSlashed(parts: seq<string>)
    requires parts != [] && forall i :: 0 <= i < |parts| ==> '/' !in parts[i]
    ensures Split(Slashed(parts), '/') == parts
  {
    if |parts| > 1 {
      SplitOfSlashed(parts[1..]);
      PartitionAt(parts[0], '/', Slashed(parts[1..]));
    }
  }

  lemma {:induction false} SlashedOfSplit(s: string)
    ensures Slashed(Split(s, '/')) == s
    decreases |s|
  {
    match Partition(s, '/')
    case None =>
    case Some((h, t)) =>
      SlashedOfSplit(t);
      assert Split(s, '/')[1..] == Split(t, '/');
  }

  /** A project path is two or more segments joined by slashes, and reads in one way only. */
  lemma PathGrammar(s: string, parts: seq<string>)
    ensures ProjectPath(s) && parts == Split(s, '/') <==> |parts| >= 2 && s == Slashed(parts) && forall i :: 0 <= i < |parts| ==> Segment(parts[i])
  {
    SlashedOfSplit(s);
    if |parts| >= 2 && s == Slashed(parts) && forall i :: 0 <= i < |parts| ==> Segment(parts[i]) {
      SplitOfSlashed(parts);
    }
  }

  predicate PathChar(c: char) {
    SegmentChar(c) || c == '/'
  }

  lemma {:induction false} SplitChars(s: string)
    requires forall i :: 0 <= i < |Split(s, '/')| ==> Segment(Split(s, '/')[i])
    ensures s != "" && forall i :: 0 <= i < |s| ==> PathChar(s[i])
    ensures SegmentChar(s[0]) && SegmentChar(s[|s| - 1])
    decreases |s|
  {
    var parts := Split(s, '/');
    match Partition(s, '/')
    case None => assert parts[0] == s;
    case Some((h, t)) =>
      assert parts[0] == h && Segment(h);
      assert parts[1..] == Split(t, '/');
      assert forall i :: 0 <= i < |parts| - 1 ==> Split(t, '/')[i] == parts[i + 1];
      SplitChars(t);
      assert s == h + ['/'] + t;
  }

  lemma PathIsPlain(s: string)
    requires ProjectPath(s)
    ensures s != "" && Trimmed(s)
    ensures ':' !in s && '#' !in s
  {
    SplitChars(s);
  }

  /** No project, a project path the provider can address, or a refusal. */
  function ValidateProject(project: Option<string>, provider: string): Result<Option<string>, string> {
    var value := if project.Some? then Strip(project.value) else "";
    if value == "" then Ok(None)
    else if !ProjectPath(value) then Err("must be a provider project path")
    else if provider == AZURE_DEVOPS && |Split(value, '/')| != ADO_PATH_PARTS then Err("must be 'organization/project/repo'")
    else Ok(Some(value))
  }

  /** What configuration accepts as a project: the stripped text, when it is two or more segments joined by slashes, and exactly three of them on Azure DevOps. */
  lemma AcceptedProjectIff(written: string, provider: string, parts: seq<string>)
    requires parts != []
    ensures (ValidateProject(Some(written), provider) == Ok(Some(Slashed(parts))) && parts == Split(Slashed(parts), '/'))
      <==> (Strip(written) == Slashed(parts) && |parts| >= 2 && (forall i :: 0 <= i < |parts| ==> Segment(parts[i])) && (provider == AZURE_DEVOPS ==> |parts| == 3))
  {
    PathGrammar(Slashed(parts), parts);
    if ProjectPath(Slashed(parts)) {
      PathIsPlain(Slashed(parts));
    }
  }

  // ----- repository references -----

  /** A project tagged with its host; GitHub stays unqualified. */
  function QualifyRepo(provider: Option<string>, project: Option<string>): Option<string> {
    if project.None? || project.value == "" then None
    else
      var kind := Lower(Strip(if provider.None? || provider.value == "" then GITHUB else provider.value));
      Some(Tagged(kind, project.value))
  }

  function Tagged(kind: string, project: string): string {
    if kind == GITHUB then project else Colon(kind, project)
  }

  function Colon(head: string, tail: string): string {
    head + [':'] + tail
  }

  /** The text before and after the first colon, when the first names a supported provider and the second is not blank. */
  function Qualification(value: string): Option<(string, string)> {
    match Partition(value, ':')
    case None => None
    case Some((head, tail)) =>
      if Supported(Lower(Strip(head))) && Strip(tail) != "" then Some((Lower(Strip(head)), Strip(tail))) else None
  }

  function ParseRepoRef(ref: Option<string>): Option<(string, string)> {
    var value := if ref.Some? then Strip(ref.value) else "";
    if value == "" then None
    else
      match Qualification(value)
      case Some(r) => Some(r)
      case None => Some((GITHUB, value))
  }

  lemma {:induction false} LowerOfLower(s: string)
    requires forall i :: 0 <= i < |s| ==> !('A' <= s[i] <= 'Z')
    ensures Lower(s) == s
  {
    if s != "" {
      LowerOfLower(s[1..]);
      assert s == [s[0]] + s[1..];
    }
  }

  /** The characters the provider names are written with. */
  predicate NameChar(c: char) {
    'a' <= c <= 'z' || c == '_'
  }

  predicate Name(s: string) {
    s != "" && forall i :: 0 <= i < |s| ==> NameChar(s[i])
  }

  lemma SupportedIsName(provider: string)
    requires Supported(provider)
    ensures Name(provider)
  {
  }

  lemma NameIsPlain(s: string)
    requires Name(s)
    ensures Lower(Strip(s)) == s && Trimmed(s) && ':' !in s
  {
    StripOfTrimmed(s);
    LowerOfLower(s);
  }

  lemma SupportedIsPlain(provider: string)
    requires Supported(provider)
    ensures Lower(Strip(provider)) == provider && Trimmed(provider) && provider != "" && ':' !in provider
  {
    SupportedIsName(provider);
    NameIsPlain(provider);
  }

  /** What two plain texts joined by a colon are read as. */
  lemma ColonParses(head: string, tail: string)
    requires Supported(head) && tail != "" && Trimmed(tail)
    ensures var text := Colon(head, tail);
      text != "" && Trimmed(text) && Strip(text) == text && Qualification(text) == Some((head, tail)) && ParseRepoRef(Some(text)) == Some((head, tail))
  {
    SupportedIsPlain(head);
    var text := Colon(head, tail);
    assert text[0] == head[0] && text[|text| - 1] == tail[|tail| - 1];
    StripOfTrimmed(text);
    StripOfTrimmed(tail);
    PartitionAt(head, ':', tail);
  }

  /** Printing a reference and parsing it back gives the same provider and project, except for a GitHub project that itself reads as a qualified reference. */
  lemma QualifiedRefParsesIff(provider: string, project: string)
    requires Supported(provider) && project != "" && Trimmed(project)
    ensures QualifyRepo(Some(provider), Some(project)) == Some(Tagged(provider, project))
    ensures ParseRepoRef(Some(Tagged(provider, project))) == Some((provider, project))
       <==> !(provider == GITHUB && Qualification(project).Some?)
  {
    SupportedIsPlain(provider);
    if provider == GITHUB {
      StripOfTrimmed(project);
      ShorterProject(project);
    } else {
      ColonParses(provider, project);
    }
  }

  /** The project of a qualified reference is shorter than the reference. */
  lemma ShorterProject(value: string)
    ensures Qualification(value).Some? ==> |Qualification(value).value.1| < |value|
  {
    if Qualification(value).Some? {
      var (head, tail) := Partition(value, ':').value;
      var l, r := StripParts(tail);
    }
  }

  lemma SpellingQualifies(spelling: string, provider: string, project: string)
    requires Lower(Strip(spelling)) == provider && provider != "" && project != ""
    ensures QualifyRepo(Some(spelling), Some(project)) == Some(Tagged(provider, project))
  {
    assert spelling == "" ==> Strip(spelling) == "";
  }

  lemma PathIsUnqualified(project: string)
    requires ProjectPath(project)
    ensures project != "" && Trimmed(project) && Qualification(project).None?
  {
    PathIsPlain(project);
  }

  /** In particular every project that configuration accepts comes back, under any spelling of its provider. */
  lemma ValidProjectRoundTrips(spelling: string, provider: string, written: Option<string>, project: string)
    requires Lower(Strip(spelling)) == provider && Supported(provider)
    requires ValidateProject(written, provider) == Ok(Some(project))
    ensures ParseRepoRef(QualifyRepo(Some(spelling), Some(project))) == Some((provider, project))
  {
    assert ProjectPath(project);
    PathIsUnqualified(project);
    SupportedIsName(provider);
    SpellingQualifies(spelling, provider, project);
    QualifiedRefParsesIff(provider, project);
  }

  /** Nothing is printed without a project, and a provider left out is GitHub. */
  lemma QualifyDefaults(provider: Option<string>, project: string)
    ensures QualifyRepo(provider, None) == QualifyRepo(provider, Some("")) == None
    ensures project != "" ==> QualifyRepo(None, Some(project)) == QualifyRepo(Some(""), Some(project)) == Some(project)
  {
    SupportedIsName(GITHUB);
    NameIsPlain(GITHUB);
  }

  /** How any reference is read: a blank one is none; one whose first colon follows a supported name, in any case and with any space around it, and precedes more than space names that provider; every other, a clone URL among them, is a GitHub project as it stands. */
  lemma RefReads(text: string, head: string, tail: string)
    ensures Strip(text) == "" ==> ParseRepoRef(Some(text)) == None
    ensures Strip(text) != "" && ':' !in Strip(text) ==> ParseRepoRef(Some(text)) == Some(("github", Strip(text)))
    ensures Strip(text) == head + [':'] + tail && ':' !in head ==>
      ParseRepoRef(Some(text)) ==
        if Lower(Strip(head)) in ["github", "gitlab", "azure_devops"] && Strip(tail) != "" then Some((Lower(Strip(head)), Strip(tail))) else Some(("github", Strip(text)))
  {
    if Strip(text) == head + [':'] + tail && ':' !in head {
      PartitionAt(head, ':', tail);
    }
  }

  /** So two configurations never print the same reference. */
  lemma QualifiedRefsDistinct(p: string, a: string, q: string, b: string)
    requires Supported(p) && ValidateProject(Some(a), p) == Ok(Some(a))
    requires Supported(q) && ValidateProject(Some(b), q) == Ok(Some(b))
    ensures QualifyRepo(Some(p), Some(a)) == QualifyRepo(Some(q), Some(b)) <==> p == q && a == b
  {
    SupportedIsPlain(p);
    SupportedIsPlain(q);
    ValidProjectRoundTrips(p, p, Some(a), a);
    ValidProjectRoundTrips(q, q, Some(b), b);
  }

  /** A reference read from outside survives being printed and read again, unless it is read as a GitHub project that reads as qualified once more. */
  lemma ReprintedRefParsesIff(text: string)
    requires ParseRepoRef(Some(text)).Some?
    ensures var (provider, project) := ParseRepoRef(Some(text)).value;
      && Supported(provider) && project != "" && Trimmed(project)
      && (ParseRepoRef(QualifyRepo(Some(provider), Some(project))) == ParseRepoRef(Some(text))
          <==> !(provider == GITHUB && Qualification(project).Some?))
  {
    var (provider, project) := ParseRepoRef(Some(text)).value;
    QualifiedRefParsesIff(provider, project);
  }

  /** Such references exist for every other provider: printed and read again, the work moves to that host. */
  lemma ReprintedRefCanMove(other: string, project: string)
    requires Supported(other) && other != GITHUB && project != "" && Trimmed(project)
    ensures var inner := Colon(other, project);
      && ParseRepoRef(Some(Colon(GITHUB, inner))) == Some((GITHUB, inner))
      && ParseRepoRef(QualifyRepo(Some(GITHUB), Some(inner))) == Some((other, project))
  {
    var inner := Colon(other, project);
    ColonParses(other, project);
    ColonParses(GITHUB, inner);
    QualifiedRefParsesIff(GITHUB, inner);
  }

  // ----- issue references -----

  datatype IssueRef = IssueRef(project: string, number: nat)

  function PrintIssue(r: IssueRef): string {
    r.project + ['#'] + Decimal(r.number)
  }

  /** The anchored pattern: a project path, a hash, decimal digits. */
  function ParseIssue(text: Option<string>): Option<IssueRef> {
    match Partition(if text.Some? then Strip(text.value) else "", '#')
    case None => None
    case Some((project, digits)) =>
      if ProjectPath(project) && digits != "" && AllDigits(digits) then Some(IssueRef(project, ParseDecimal(digits))) else None
  }

  /** The project half, as the store reads it. */
  function IssueProject(ref: Option<string>): Option<string> {
    if ref.None? || ref.value == "" then None
    else
      match RSplit(ref.value, '#')
      case None => None
      case Some((head, _)) => if Strip(head) == "" then None else Some(Strip(head))
  }

  /** The number half, as the dispatcher reads it; an error where `int` refuses a digit that `isdigit` has let through. */
  function IssueNumber(t: Chars, ref: Option<string>): Result<Option<nat>, string> {
    if ref.None? || ref.value == "" then Ok(None)
    else
      match RSplit(ref.value, '#')
      case None => Ok(None)
      case Some((_, tail)) =>
        if !IsDigits(t, Strip(tail)) then Ok(None)
        else if IntOf(t, Strip(tail)).None? then Err("invalid literal for int()")
        else Ok(IntOf(t, Strip(tail)))
  }

  predicate Names(text: string, digits: string, r: IssueRef) {
    ProjectPath(r.project) && digits != "" && AllDigits(digits) && r.number == ParseDecimal(digits) && text == r.project + ['#'] + digits
  }

  /** A string is read as a reference exactly when, between whitespace, it is written as one; and then as that one only. */
  lemma IssueGrammar(text: string, r: IssueRef)
    ensures ParseIssue(Some(text)) == Some(r) <==> exists digits :: Names(Strip(text), digits, r)
  {
    if ParseIssue(Some(text)) == Some(r) {
      var (project, digits) := Partition(Strip(text), '#').value;
      assert Names(Strip(text), digits, r);
    }
    if digits :| Names(Strip(text), digits, r) {
      PathIsPlain(r.project);
      PartitionAt(r.project, '#', digits);
    }
  }

  /** Every reference to an issue of a project is read back from its printed form. */
  lemma PrintedIssueParses(r: IssueRef)
    requires ProjectPath(r.project)
    ensures ParseIssue(Some(PrintIssue(r))) == Some(r)
  {
    PathIsPlain(r.project);
    var s, digits := PrintIssue(r), Decimal(r.number);
    assert s[0] == r.project[0] && s[|s| - 1] == digits[|digits| - 1];
    StripOfTrimmed(s);
    ParseOfDecimal(r.number);
    PartitionAt(r.project, '#', digits);
  }

  /** An accepted string is whitespace, a project, a hash, digits and whitespace. */
  lemma AcceptedParts(text: string) returns (before: string, project: string, digits: string, after: string)
    requires ParseIssue(Some(text)).Some?
    ensures AllSpace(before) && AllSpace(after) && text == (before + project) + ['#'] + (digits + after)
    ensures ProjectPath(project) && digits != "" && AllDigits(digits)
    ensures ParseIssue(Some(text)) == Some(IssueRef(project, ParseDecimal(digits)))
  {
    before, after := StripParts(text);
    var parts := Partition(Strip(text), '#').value;
    project, digits := parts.0, parts.1;
    Regroup(before, project, digits, after);
  }

  lemma Regroup(a: string, b: string, c: string, d: string)
    ensures a + (b + ['#'] + c) + d == (a + b) + ['#'] + (c + d)
  {
  }

  lemma FirstHalf(text: string, before: string, project: string, tail: string)
    requires AllSpace(before) && text == (before + project) + ['#'] + tail
    requires project != "" && Trimmed(project) && '#' !in tail
    ensures IssueProject(Some(text)) == Some(project)
  {
    RSplitAt(before + project, '#', tail);
    StripPadded(before, project, "");
    assert before + project + "" == before + project;
  }

  /** The number is read from what follows the last hash, whatever stands before it: with whitespace around them, digits a caller may write in any script give the number they spell, and a digit that is not decimal is an error. */
  lemma SecondHalf(t: Chars, text: string, head: string, before: string, digits: string, after: string)
    requires AllSpace(before) && AllSpace(after) && '#' !in before + digits + after && text == head + ['#'] + (before + digits + after)
    requires IsDigits(t, digits) && Trimmed(digits)
    ensures IssueNumber(t, Some(text)) == if exists i :: 0 <= i < |digits| && t.decimal(digits[i]).None? then Err("invalid literal for int()") else Ok(IntOf(t, digits))
  {
    RSplitAt(head, '#', before + digits + after);
    StripPadded(before, digits, after);
  }

  lemma AsciiHalf(t: Chars, text: string, head: string, digits: string, after: string)
    requires Unicode(t) && AllSpace(after) && text == head + ['#'] + (digits + after)
    requires digits != "" && AllDigits(digits)
    ensures '#' !in digits + after && IssueNumber(t, Some(text)) == Ok(Some(ParseDecimal(digits)))
  {
    NoHash(digits, after);
    assert "" + digits + after == digits + after;
    AsciiInt(t, digits);
    SecondHalf(t, text, head, "", digits, after);
  }

  lemma NoHash(digits: string, after: string)
    requires AllDigits(digits) && AllSpace(after)
    ensures '#' !in digits + after && Trimmed(digits)
  {
  }

  /** On every string the first parser accepts, the other two find the same project and the same number, whatever whitespace surrounds it. */
  lemma ParsersAgree(t: Chars, text: string)
    requires Unicode(t) && ParseIssue(Some(text)).Some?
    ensures var r := ParseIssue(Some(text)).value;
      IssueProject(Some(text)) == Some(r.project) && IssueNumber(t, Some(text)) == Ok(Some(r.number))
  {
    var before, project, digits, after := AcceptedParts(text);
    PathIsPlain(project);
    AsciiHalf(t, text, before + project, digits, after);
    FirstHalf(text, before, project, digits + after);
  }

  // ----- one issue, one text -----

  predicate NoLeadingZero(digits: string) {
    digits != "" && (digits[0] == '0' ==> |digits| == 1)
  }

  lemma {:induction false} DecimalHasNoLeadingZero(n: nat)
    ensures NoLeadingZero(Decimal(n)) && (n > 0 ==> Decimal(n)[0] != '0')
  {
    if n >= 10 {
      DecimalHasNoLeadingZero(n / 10);
    }
  }

  lemma {:induction false} DecimalOfParse(digits: string)
    requires digits != "" && AllDigits(digits)
    ensures Decimal(ParseDecimal(digits)) == digits <==> NoLeadingZero(digits)
    ensures digits[0] != '0' ==> ParseDecimal(digits) > 0
  {
    DecimalHasNoLeadingZero(ParseDecimal(digits));
    var k := |digits| - 1;
    var rest, n := digits[..k], ParseDecimal(digits);
    if k > 0 && digits[0] != '0' {
      DecimalOfParse(rest);
      assert n / 10 == ParseDecimal(rest) && n % 10 == DigitValue(digits[k]);
      assert digits == rest + [digits[k]];
    }
    if k == 0 {
      assert ParseDecimal(rest) == 0;
      assert digits == [digits[0]];
    }
  }

  /** The index on the text of a reference tells issues apart only among texts as they are printed: a text is the printed form of the issue it names exactly when nothing surrounds it and its number has no leading zero. */
  lemma PrintedFormIff(text: string)
    requires ParseIssue(Some(text)).Some?
    ensures PrintIssue(ParseIssue(Some(text)).value) == text <==> Trimmed(text) && NoLeadingZero(Partition(Strip(text), '#').value.1)
  {
    var (project, digits) := Partition(Strip(text), '#').value;
    var r := ParseIssue(Some(text)).value;
    DecimalOfParse(digits);
    PathIsPlain(project);
    if Trimmed(text) {
      StripOfTrimmed(text);
    }
    if PrintIssue(r) == text {
      assert text[0] == project[0] && IsDigit(text[|text| - 1]);
      StripOfTrimmed(text);
      SplitAtFirst(project, Decimal(r.number), project, digits, '#');
    }
  }
}
