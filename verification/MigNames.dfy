/** Canonical MIG device names: the printer, the sanitiser it uses and the pattern that reads a name back. */
module MigNames {
  import opened Basics
  import opened Decimal

  const MAX_INT := 0x7FFF_FFFF_FFFF_FFFF
  const MAX_NAME_LENGTH := 253

  /** Parent, GPU-instance profile and placement: the physical configuration a name stands for. */
  datatype MigSpecTuple = MigSpecTuple(parentMinor: int, parentPciBusId: string, profileId: int, placementStart: int)

  // ---------------------------------------------------------------- sanitiser

  function ToLower(c: char): char {
    if 'A' <= c <= 'Z' then c - 'A' + 'a' else c
  }

  predicate IsNameChar(c: char) {
    'a' <= c <= 'z' || '0' <= c <= '9' || c == '-' || c == '.'
  }

  function SanitiseChar(c: char): (r: char)
    ensures IsNameChar(r)
  {
    if IsNameChar(ToLower(c)) then ToLower(c) else '-'
  }

  function TrimLeftHyphens(s: string): string {
    if s != "" && s[0] == '-' then TrimLeftHyphens(s[1..]) else s
  }

  function TrimRightHyphens(s: string): string {
    if s != "" && s[|s| - 1] == '-' then TrimRightHyphens(s[..|s| - 1]) else s
  }

  function TrimDot(s: string): string {
    if s != "" && s[|s| - 1] == '.' then s[..|s| - 1] else s
  }

  /** Lower case, with a hyphen for everything outside the DNS alphabet. */
  function Lowered(name: string): string {
    seq(|name|, i requires 0 <= i < |name| => SanitiseChar(name[i]))
  }

  /** Without the hyphens at both ends. */
  function Trimmed(name: string): string {
    TrimRightHyphens(TrimLeftHyphens(Lowered(name)))
  }

  function ToRfc1123Compliant(name: string): string {
    var trimmed := TrimDot(Trimmed(name));
    if |trimmed| > MAX_NAME_LENGTH then trimmed[..MAX_NAME_LENGTH] else trimmed
  }

  predicate AllNameChars(s: string) {
    forall i :: 0 <= i < |s| ==> IsNameChar(s[i])
  }

  lemma {:induction false} TrimLeftShape(s: string)
    requires AllNameChars(s)
    ensures var r := TrimLeftHyphens(s); AllNameChars(r) && |r| <= |s| && (r != "" ==> r[0] != '-')
  {
    if s != "" && s[0] == '-' {
      TrimLeftShape(s[1..]);
    }
  }

  lemma {:induction false} TrimRightShape(s: string)
    ensures TrimRightHyphens(s) <= s
  {
    if s != "" && s[|s| - 1] == '-' {
      TrimRightShape(s[..|s| - 1]);
    }
  }

  /** What the sanitiser does guarantee: the DNS alphabet, no leading hyphen and at most 253 characters. */
  lemma SanitisedShape(name: string)
    ensures var r := ToRfc1123Compliant(name);
            && |r| <= 253 && (r != "" ==> r[0] != '-')
            && forall i :: 0 <= i < |r| ==> 'a' <= r[i] <= 'z' || '0' <= r[i] <= '9' || r[i] == '-' || r[i] == '.'
  {
    TrimLeftShape(Lowered(name));
    TrimRightShape(TrimLeftHyphens(Lowered(name)));
  }

  predicate EndsIn(s: string, c: char) {
    s != "" && s[|s| - 1] == c
  }

  lemma {:induction false} TrimRightEnd(s: string)
    ensures !EndsIn(TrimRightHyphens(s), '-')
  {
    if s != "" && s[|s| - 1] == '-' {
      TrimRightEnd(s[..|s| - 1]);
    }
  }

  /** What it does not guarantee is a letter or a digit at the end (section 2.1 of RFC 1123). The final dot
      and the excess characters are cut after the hyphens, so a hyphen is last exactly when the cut to 253
      characters lands on one, or there is no such cut and a hyphen stood before the final dot. */
  lemma SanitisedNameEndsInHyphenIff(name: string)
    ensures var t := Trimmed(name);
            EndsIn(ToRfc1123Compliant(name), '-') <==>
              if |TrimDot(t)| > MAX_NAME_LENGTH then t[MAX_NAME_LENGTH - 1] == '-'
              else |t| >= 2 && t[|t| - 2] == '-' && t[|t| - 1] == '.'
  {
    TrimRightEnd(TrimLeftHyphens(Lowered(name)));
  }

  // ------------------------------------------------------------------ printer

  function RemoveDots(s: string): string {
    if s == "" then "" else (if s[0] == '.' then "" else [s[0]]) + RemoveDots(s[1..])
  }

  function ProfilePart(profileName: string): string {
    ToRfc1123Compliant(RemoveDots(profileName))
  }

  lemma {:induction false} RemoveDotsShape(s: string)
    ensures '.' !in RemoveDots(s)
  {
    if s != "" {
      RemoveDotsShape(s[1..]);
    }
  }

  lemma {:induction false} TrimLeftKeeps(s: string)
    ensures forall c :: c in TrimLeftHyphens(s) ==> c in s
  {
    if s != "" && s[0] == '-' {
      TrimLeftKeeps(s[1..]);
    }
  }

  /** The printer removes dots before it sanitises, so only the cut can leave a hyphen at the end. */
  lemma ProfilePartEndsInHyphenIff(profileName: string)
    ensures var t := Trimmed(RemoveDots(profileName));
            EndsIn(ProfilePart(profileName), '-') <==> |t| > MAX_NAME_LENGTH && t[MAX_NAME_LENGTH - 1] == '-'
  {
    var dotless := RemoveDots(profileName);
    var t := Trimmed(dotless);
    RemoveDotsShape(profileName);
    TrimLeftKeeps(Lowered(dotless));
    TrimRightShape(TrimLeftHyphens(Lowered(dotless)));
    assert forall i :: 0 <= i < |dotless| ==> dotless[i] in dotless;
    assert '.' !in Lowered(dotless);
    assert '.' !in t && !EndsIn(t, '.');
    SanitisedNameEndsInHyphenIff(dotless);
  }

  predicate IsPlainWord(w: string) {
    forall i :: 0 <= i < |w| ==> 'a' <= w[i] <= 'z' || '0' <= w[i] <= '9'
  }

  lemma {:induction false} PlainWordHasNoDots(w: string)
    requires '.' !in w
    ensures RemoveDots(w) == w
  {
    if w != "" {
      PlainWordHasNoDots(w[1..]);
    }
  }

  /** Profile names that show it: 252 letters or digits, a hyphen, and anything more. */
  lemma LongProfilePartEndsInHyphen(w: string, c: char)
    requires |w| == MAX_NAME_LENGTH - 1 && IsPlainWord(w) && IsPlainWord([c])
    ensures ProfilePart(w + "-" + [c]) == w + "-"
  {
    var name := w + "-" + [c];
    assert forall i :: 0 <= i < |name| ==> name[i] == (if i < |w| then w[i] else if i == |w| then '-' else c);
    PlainWordHasNoDots(name);
    assert Lowered(name) == name;
    assert [c][0] == c && name[0] == w[0] && name[0] != '-' && name[|name| - 1] != '-';
    assert name[..MAX_NAME_LENGTH] == w + "-";
  }

  function ToCanonicalName(m: MigSpecTuple, profileName: string): string {
    "gpu-" + PrintInt(m.parentMinor) + "-mig-" + ProfilePart(profileName) + "-" +
    PrintInt(m.profileId) + "-" + PrintInt(m.placementStart)
  }

  lemma {:induction false} RemoveDotsConcat(a: string, b: string)
    ensures RemoveDots(a + b) == RemoveDots(a) + RemoveDots(b)
  {
    if a == "" {
      assert a + b == b;
    } else {
      assert (a + b)[1..] == a[1..] + b;
      RemoveDotsConcat(a[1..], b);
    }
  }

  lemma PartOfTwoWordProfile(a: string, b: string)
    requires IsPlainWord(a) && IsPlainWord(b) && 0 < |a| + |b| <= MAX_NAME_LENGTH
    ensures ProfilePart(a + "." + b) == a + b
  {
    DotIsRemoved(a, b);
    assert IsPlainWord(a + b);
    PlainWordIsKept(a + b);
  }

  lemma NoDotInPlainWord(w: string)
    requires IsPlainWord(w)
    ensures '.' !in w
  {
  }

  lemma DotIsRemoved(a: string, b: string)
    requires IsPlainWord(a) && IsPlainWord(b)
    ensures RemoveDots(a + "." + b) == a + b
  {
    NoDotInPlainWord(a);
    NoDotInPlainWord(b);
    hide IsPlainWord;
    RemoveDotsConcat(a + ".", b);
    RemoveDotsConcat(a, ".");
    PlainWordHasNoDots(a);
    PlainWordHasNoDots(b);
    assert "."[1..] == "";
  }

  lemma PlainWordIsKept(w: string)
    requires IsPlainWord(w) && 0 < |w| <= MAX_NAME_LENGTH
    ensures ToRfc1123Compliant(w) == w
  {
    assert Lowered(w) == w;
    assert w[0] != '-' && w[|w| - 1] != '-' && w[|w| - 1] != '.';
  }

  /** Profiles are called like "1g.10gb": the name has the two words without the dot, between the GPU's minor
      number and the ids of profile and placement. */
  lemma NameOfTwoWordProfile(m: MigSpecTuple, a: string, b: string)
    requires IsPlainWord(a) && IsPlainWord(b) && 0 < |a| + |b| <= MAX_NAME_LENGTH
    requires 0 <= m.parentMinor && 0 <= m.profileId && 0 <= m.placementStart
    ensures ToCanonicalName(m, a + "." + b) ==
            "gpu-" + Print(m.parentMinor) + "-mig-" + (a + b) + "-" + Print(m.profileId) + "-" + Print(m.placementStart)
  {
    hide ProfilePart, Print;
    PartOfTwoWordProfile(a, b);
  }

  // ------------------------------------------------------------------ pattern

  /** The four capture groups of `^gpu-(\d+)-mig-(.+)-(\d+)-(\d+)$`. */
  datatype Groups = Groups(minor: string, profile: string, profileId: string, start: string)

  predicate IsNumber(s: string) {
    s != "" && AllDigits(s)
  }

  function Body(g: Groups): string {
    g.profile + "-" + g.profileId + "-" + g.start
  }

  function Render(g: Groups): string {
    "gpu-" + (g.minor + ("-mig-" + Body(g)))
  }

  /** The language of the pattern, with no commitment to a matching order. */
  predicate IsMatch(name: string, g: Groups) {
    && IsNumber(g.minor) && IsNumber(g.profileId) && IsNumber(g.start)
    && g.profile != "" && '\n' !in g.profile
    && name == Render(g)
  }

  function DigitPrefix(s: string): (r: string)
    ensures r <= s && AllDigits(r)
  {
    if s != "" && IsDigit(s[0]) then [s[0]] + DigitPrefix(s[1..]) else ""
  }

  /** Splits at the last hyphen. */
  function SplitLast(s: string): (r: Option<(string, string)>)
    ensures r.Some? ==> s == r.value.0 + "-" + r.value.1
  {
    if s == "" then None
    else if s[|s| - 1] == '-' then Some((s[..|s| - 1], ""))
    else
      match SplitLast(s[..|s| - 1])
      case None => None
      case Some(p) => Some((p.0, p.1 + [s[|s| - 1]]))
  }

  function SplitTail(body: string): Option<(string, string, string)> {
    match SplitLast(body)
    case None => None
    case Some((head, start)) =>
      match SplitLast(head)
      case None => None
      case Some((profile, profileId)) => Some((profile, profileId, start))
  }

  function FindStringSubmatch(name: string): Option<Groups> {
    if !("gpu-" <= name) then None else
    var minor := DigitPrefix(name[4..]);
    var rest := name[4 + |minor|..];
    if minor == "" || !("-mig-" <= rest) then None else
    match SplitTail(rest[5..])
    case None => None
    case Some((profile, profileId, start)) =>
      if IsNumber(profileId) && IsNumber(start) && profile != "" && '\n' !in profile
      then Some(Groups(minor, profile, profileId, start))
      else None
  }

  lemma {:induction false} DigitPrefixStops(digits: string, rest: string)
    requires AllDigits(digits)
    requires rest != "" && !IsDigit(rest[0])
    ensures DigitPrefix(digits + rest) == digits
  {
    if digits == "" {
      assert digits + rest == rest;
    } else {
      assert (digits + rest)[1..] == digits[1..] + rest;
      DigitPrefixStops(digits[1..], rest);
    }
  }

  lemma {:induction false} SplitLastOfDigits(head: string, digits: string)
    requires AllDigits(digits)
    ensures SplitLast(head + "-" + digits) == Some((head, digits))
  {
    var s := head + "-" + digits;
    if digits == "" {
      assert s[..|s| - 1] == head;
    } else {
      assert s[..|s| - 1] == head + "-" + digits[..|digits| - 1];
      SplitLastOfDigits(head, digits[..|digits| - 1]);
      assert digits == digits[..|digits| - 1] + [s[|s| - 1]];
    }
  }

  /** However many hyphens and digits the profile contains, a name has at most one reading, so the
      greedy search of the regular expression cannot pick a wrong one: the search finds a reading
      exactly when there is one. */
  lemma MatchIsUnique(name: string, g: Groups)
    ensures IsMatch(name, g) <==> FindStringSubmatch(name) == Some(g)
  {
    if IsMatch(name, g) {
      MatchIsFound(name, g);
    }
    if FindStringSubmatch(name) == Some(g) {
      FoundIsMatch(name, g);
    }
  }

  lemma FoundIsMatch(name: string, g: Groups)
    requires FindStringSubmatch(name) == Some(g)
    ensures IsMatch(name, g)
  {
    var tail := name[4..];
    var rest := name[4 + |g.minor|..];
    assert DigitPrefix(tail) == g.minor && SplitTail(rest[5..]) == Some((g.profile, g.profileId, g.start));
    assert rest == tail[|g.minor|..];
    TailIsRendered(name, tail, rest, g);
  }

  lemma TailIsRendered(name: string, tail: string, rest: string, g: Groups)
    requires "gpu-" <= name && tail == name[4..]
    requires g.minor <= tail && rest == tail[|g.minor|..]
    requires "-mig-" <= rest && SplitTail(rest[5..]) == Some((g.profile, g.profileId, g.start))
    ensures name == Render(g)
  {
    assert name == "gpu-" + tail;
    assert tail == g.minor + rest;
    assert rest == "-mig-" + rest[5..];
    SplitTailJoins(rest[5..]);
  }

  lemma SplitTailJoins(body: string)
    ensures var r := SplitTail(body);
            r.Some? ==> body == r.value.0 + "-" + r.value.1 + "-" + r.value.2
  {
  }

  /** The pieces the search cuts out of a rendered name are the groups it was rendered from. */
  lemma CutPoints(name: string, g: Groups)
    requires IsNumber(g.minor) && AllDigits(g.profileId) && AllDigits(g.start)
    requires name == Render(g)
    ensures "gpu-" <= name && DigitPrefix(name[4..]) == g.minor
    ensures "-mig-" <= name[4 + |g.minor|..] && name[4 + |g.minor|..][5..] == Body(g)
  {
    var rest := "-mig-" + Body(g);
    assert name[4..] == g.minor + rest;
    DigitPrefixStops(g.minor, rest);
    assert name[4 + |g.minor|..] == rest;
    assert rest[5..] == Body(g);
  }

  lemma BodySplits(g: Groups)
    requires AllDigits(g.profileId) && AllDigits(g.start)
    ensures SplitTail(Body(g)) == Some((g.profile, g.profileId, g.start))
  {
    var head := g.profile + "-" + g.profileId;
    assert Body(g) == head + "-" + g.start;
    SplitLastOfDigits(head, g.start);
    SplitLastOfDigits(g.profile, g.profileId);
  }

  lemma MatchIsFound(name: string, g: Groups)
    requires IsMatch(name, g)
    ensures FindStringSubmatch(name) == Some(g)
  {
    CutPoints(name, g);
    BodySplits(g);
  }

  // ------------------------------------------------------------------- parser

  /** `strconv.Atoi` on a string of digits. */
  function Atoi(s: string): Result<int>
    requires IsNumber(s)
  {
    if Value(s) <= MAX_INT then Ok(Value(s)) else Err(OutOfRange)
  }

  /** The parent's PCI bus ID is not part of a name and stays empty. */
  function NewMigSpecTupleFromCanonicalName(name: string): Result<MigSpecTuple> {
    match FindStringSubmatch(name)
    case None => Err(BadName)
    case Some(g) =>
      MatchIsUnique(name, g);
      var parentMinor :- Atoi(g.minor);
      var profileId :- Atoi(g.profileId);
      var placementStart :- Atoi(g.start);
      Ok(MigSpecTuple(parentMinor, "", profileId, placementStart))
  }

  predicate InRange(m: MigSpecTuple) {
    0 <= m.parentMinor <= MAX_INT && 0 <= m.profileId <= MAX_INT && 0 <= m.placementStart <= MAX_INT
  }

  lemma CanonicalNameIsRendered(m: MigSpecTuple, profileName: string)
    requires InRange(m)
    ensures ToCanonicalName(m, profileName) ==
            Render(Groups(Print(m.parentMinor), ProfilePart(profileName), Print(m.profileId), Print(m.placementStart)))
  {
    hide ProfilePart;
    var minor, profile := Print(m.parentMinor), ProfilePart(profileName);
    var tail := "-" + Print(m.profileId) + "-" + Print(m.placementStart);
    var body := profile + "-" + Print(m.profileId) + "-" + Print(m.placementStart);
    assert body == profile + tail;
    assert ToCanonicalName(m, profileName) == "gpu-" + minor + "-mig-" + profile + tail;
    assert "gpu-" + minor + "-mig-" + profile + tail == "gpu-" + (minor + ("-mig-" + (profile + tail)));
  }

  /** Whatever the profile part ends in, the whole name ends in a digit. */
  lemma CanonicalNameEndsInDigit(m: MigSpecTuple, profileName: string)
    requires InRange(m)
    ensures var name := ToCanonicalName(m, profileName); name != "" && IsDigit(name[|name| - 1])
  {
    hide ProfilePart, Print;
    var name := ToCanonicalName(m, profileName);
    var start := PrintInt(m.placementStart);
    assert start == Print(m.placementStart);
    assert name[|name| - |start|..] == start;
    assert name[|name| - 1] == start[|start| - 1];
  }

  /** A printed name is read back exactly when the sanitised profile is not empty; the reading is the
      printed triple, with the parent's PCI bus ID dropped. */
  lemma CanonicalNameRoundTrip(m: MigSpecTuple, profileName: string)
    requires InRange(m)
    ensures ProfilePart(profileName) != "" ==>
              NewMigSpecTupleFromCanonicalName(ToCanonicalName(m, profileName)) == Ok(m.(parentPciBusId := ""))
    ensures ProfilePart(profileName) == "" ==>
              NewMigSpecTupleFromCanonicalName(ToCanonicalName(m, profileName)).Err?
  {
    hide ToCanonicalName, ProfilePart;
    var g := Groups(Print(m.parentMinor), ProfilePart(profileName), Print(m.profileId), Print(m.placementStart));
    var name := ToCanonicalName(m, profileName);
    CanonicalNameIsRendered(m, profileName);
    if g.profile != "" {
      ProfilePartIsOneLine(profileName);
      RenderedIsRead(m, name, g);
    } else {
      EmptyProfileIsNotFound(name, g);
    }
  }

  lemma ProfilePartIsOneLine(profileName: string)
    ensures '\n' !in ProfilePart(profileName)
  {
    SanitisedShape(RemoveDots(profileName));
    var p := ProfilePart(profileName);
    assert forall i :: 0 <= i < |p| ==> IsNameChar(p[i]);
  }

  lemma RenderedIsRead(m: MigSpecTuple, name: string, g: Groups)
    requires InRange(m) && name == Render(g) && g.profile != "" && '\n' !in g.profile
    requires g.minor == Print(m.parentMinor) && g.profileId == Print(m.profileId) && g.start == Print(m.placementStart)
    ensures NewMigSpecTupleFromCanonicalName(name) == Ok(m.(parentPciBusId := ""))
  {
    ValueOfPrint(m.parentMinor);
    ValueOfPrint(m.profileId);
    ValueOfPrint(m.placementStart);
    MatchIsUnique(name, g);
  }

  lemma EmptyProfileIsNotFound(name: string, g: Groups)
    requires IsNumber(g.minor) && IsNumber(g.profileId) && IsNumber(g.start) && g.profile == ""
    requires name == Render(g)
    ensures FindStringSubmatch(name).None?
  {
    CutPoints(name, g);
    BodySplits(g);
  }

  /** Two configurations never share a name, whatever their profile names are. */
  lemma CanonicalNameIsInjective(m: MigSpecTuple, n: MigSpecTuple, p: string, q: string)
    requires InRange(m) && InRange(n)
    requires ProfilePart(p) != "" && ToCanonicalName(m, p) == ToCanonicalName(n, q)
    ensures m.(parentPciBusId := "") == n.(parentPciBusId := "")
  {
    CanonicalNameRoundTrip(m, p);
    CanonicalNameRoundTrip(n, q);
  }
}
