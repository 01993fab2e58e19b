/** portal/booth_identity.py: printing and parsing booth IDs and MediaMTX paths.
    `iso` stands for the table of recognised ISO 639-1 codes; None stands for a raised ValueError. */
module BoothIdentity {
  import opened Wrappers
  import opened Text

  const EVENT_SLUG_MAX_LENGTH := 64
  const FLOOR := "floor"

  datatype Coordinates = Coordinates(slug: string, room: nat, code: string)

  predicate IsLetter(c: char) { 'a' <= c <= 'z' }

  predicate IsAlnum(c: char) { IsLetter(c) || IsDigit(c) }

  /** [a-z0-9]+ */
  predicate Segment(s: string) {
    s != "" && forall i :: 0 <= i < |s| ==> IsAlnum(s[i])
  }

  /** ^[a-z0-9]+(?:-[a-z0-9]+)*$, matched from the right: hyphens separate the segments. */
  predicate SlugRe(s: string) {
    var k := LastIndex(s, '-');
    if k < 0 then Segment(s) else SlugRe(s[..k]) && Segment(s[k + 1..])
  }

  /** [a-z]{2} */
  predicate TwoLetters(s: string) {
    |s| == 2 && IsLetter(s[0]) && IsLetter(s[1])
  }

  /** [a-z]{2}|floor */
  predicate CodeRe(s: string) {
    TwoLetters(s) || s == FLOOR
  }

  // ---- Validation ----

  function ValidateEventSlug(slug: string): Option<string> {
    var normalised := Lower(Strip(slug));
    if normalised != "" && |normalised| <= EVENT_SLUG_MAX_LENGTH && SlugRe(normalised) then Some(normalised) else None
  }

  function ValidateLanguageCode(iso: set<string>, code: string): Option<string> {
    var normalised := Lower(Strip(code));
    if normalised == FLOOR || (TwoLetters(normalised) && normalised in iso) then Some(normalised) else None
  }

  function ValidateRoomId(room: int): Option<nat> {
    if room < 0 then None else Some(room)
  }

  // ---- Construction and conversion ----

  function BoothIdOf(c: Coordinates): string {
    c.slug + "-" + Show(c.room) + "-" + c.code
  }

  function PathOf(c: Coordinates): string {
    c.slug + "/" + Show(c.room) + "/" + c.code
  }

  function Validate(iso: set<string>, slug: string, room: int, code: string): Option<Coordinates> {
    var s, r, c := ValidateEventSlug(slug), ValidateRoomId(room), ValidateLanguageCode(iso, code);
    if s.Some? && r.Some? && c.Some? then Some(Coordinates(s.value, r.value, c.value)) else None
  }

  function MakeBoothId(iso: set<string>, slug: string, room: int, code: string): Option<string> {
    match Validate(iso, slug, room, code) case Some(c) => Some(BoothIdOf(c)) case None => None
  }

  /** make_mediamtx_path: a missing room is printed as "None". */
  function MakeMediamtxPath(iso: set<string>, slug: string, room: Option<int>, code: string): Option<string> {
    match room
    case Some(r) => (match Validate(iso, slug, r, code) case Some(c) => Some(PathOf(c)) case None => None)
    case None =>
      match Validate(iso, slug, 0, code) case Some(c) => Some(c.slug + "/" + "None" + "/" + c.code) case None => None
  }

  /** normalised.rsplit(c, 2) when it gives three parts. */
  function RSplit2(s: string, c: char): Option<(string, string, string)> {
    var k := LastIndex(s, c);
    if k < 0 then None
    else
      var j := LastIndex(s[..k], c);
      if j < 0 then None else Some((s[..j], s[j + 1..k], s[k + 1..]))
  }

  /** _BOOTH_ID_RE, as the split parse_booth_id relies on; BoothIdReIsTheGrammar says what it matches. */
  predicate BoothIdRe(s: string) {
    match RSplit2(s, '-')
    case Some((slug, digits, code)) => SlugRe(slug) && Digits(digits) && CodeRe(code)
    case None => false
  }

  function ParseBoothId(iso: set<string>, boothId: string): Option<Coordinates> {
    ReadBoothId(iso, Lower(Strip(boothId)))
  }

  function ReadBoothId(iso: set<string>, normalised: string): Option<Coordinates> {
    if !BoothIdRe(normalised) then None
    else
      var (slug, digits, code) := RSplit2(normalised, '-').value;
      if ValidateEventSlug(slug).Some? && ValidateLanguageCode(iso, code).Some?
      then Some(Coordinates(slug, ParseInt(digits), code)) else None
  }

  function BoothIdToPath(iso: set<string>, boothId: string): Option<string> {
    match ParseBoothId(iso, boothId) case Some(c) => Some(PathOf(c)) case None => None
  }

  function ParsePath(iso: set<string>, path: string): Option<Coordinates> {
    var parts := Split(StripOf(Strip(path), Only('/')), '/');
    if |parts| != 3 || !Digits(parts[1]) then None
    else Validate(iso, parts[0], ParseInt(parts[1]), parts[2])
  }

  function PathToBoothId(iso: set<string>, path: string): Option<string> {
    match ParsePath(iso, path) case Some(c) => Some(BoothIdOf(c)) case None => None
  }

  // ---- What the pattern of a slug means ----

  /** Alphanumeric and hyphens, starting and ending with an alphanumeric, without consecutive hyphens. */
  predicate Described(s: string) {
    && s != ""
    && (forall i :: 0 <= i < |s| ==> 'a' <= s[i] <= 'z' || '0' <= s[i] <= '9' || s[i] == '-')
    && s[0] != '-' && s[|s| - 1] != '-'
    && (forall i :: 0 <= i < |s| - 1 ==> !(s[i] == '-' && s[i + 1] == '-'))
  }

  lemma DescribedParts(s: string, a: string, b: string)
    requires s == a + ['-'] + b && Lacks(b, '-')
    ensures Described(s) <==> Described(a) && Segment(b)
  {
    var k := |a|;
    assert forall i :: 0 <= i < k ==> s[i] == a[i];
    assert forall i :: 0 <= i < |b| ==> s[i + k + 1] == b[i];
    assert s[k] == '-';
    if Described(s) {
      assert k > 0 && k + 1 < |s|;
      assert s[k - 1] != '-';
      forall i | 0 <= i < |b| ensures IsAlnum(b[i]) { assert b[i] == s[i + k + 1]; }
    }
    if Described(a) && Segment(b) {
      forall i | 0 <= i < |s| ensures IsAlnum(s[i]) || s[i] == '-' {
        assert s[i] == if i < k then a[i] else if i == k then '-' else b[i - k - 1];
      }
      forall i | 0 <= i < |s| - 1 ensures !(s[i] == '-' && s[i + 1] == '-') {
        assert i > k ==> s[i] == b[i - k - 1];
      }
    }
  }

  lemma {:induction false} SlugReIsItsDescription(s: string)
    ensures SlugRe(s) <==> Described(s)
    decreases |s|
  {
    var k := LastIndex(s, '-');
    if k >= 0 {
      SlugReIsItsDescription(s[..k]);
      assert s == s[..k] + ['-'] + s[k + 1..];
      DescribedParts(s, s[..k], s[k + 1..]);
    } else {
      assert s[k + 1..] == s;
    }
  }

  // ---- Normalised coordinates ----

  /** Coordinates every validator returns unchanged. */
  predicate Normal(iso: set<string>, c: Coordinates) {
    && c.slug != "" && |c.slug| <= EVENT_SLUG_MAX_LENGTH && SlugRe(c.slug)
    && (c.code == FLOOR || (TwoLetters(c.code) && c.code in iso))
  }

  /** Lower-case letters, digits and separators only, no blank at either end. */
  predicate Plain(s: string) {
    && s != "" && !IsSpace(s[0]) && !IsSpace(s[|s| - 1])
    && forall i :: 0 <= i < |s| ==> !('A' <= s[i] <= 'Z')
  }

  lemma PlainIsKept(s: string)
    requires Plain(s)
    ensures Lower(Strip(s)) == s
  {
    StripKeeps(s, Blank);
    assert Lower(s) == s;
  }

  lemma CodeIsPlain(code: string)
    requires CodeRe(code)
    ensures |code| >= 2 && forall i :: 0 <= i < |code| ==> IsLetter(code[i])
  {
  }

  lemma PartsArePlain(iso: set<string>, c: Coordinates)
    requires Normal(iso, c)
    ensures Plain(c.slug) && Plain(c.code) && Lacks(c.slug, '/') && Lacks(c.code, '-') && Lacks(c.code, '/')
    ensures Lacks(Show(c.room), '-') && Lacks(Show(c.room), '/')
    ensures IsAlnum(c.slug[0]) && IsLetter(c.code[|c.code| - 1]) && |c.code| >= 2
  {
    SlugReIsItsDescription(c.slug);
    CodeIsPlain(c.code);
  }

  lemma NormalIsKept(iso: set<string>, c: Coordinates)
    requires Normal(iso, c)
    ensures ValidateEventSlug(c.slug) == Some(c.slug) && ValidateLanguageCode(iso, c.code) == Some(c.code)
    ensures Validate(iso, c.slug, c.room, c.code) == Some(c)
  {
    PartsArePlain(iso, c);
    PlainIsKept(c.slug);
    PlainIsKept(c.code);
  }

  lemma ValidatedIsNormal(iso: set<string>, slug: string, room: int, code: string)
    ensures Validate(iso, slug, room, code).Some? ==> Normal(iso, Validate(iso, slug, room, code).value)
  {
  }

  lemma RSplit2Of(s: string, a: string, b: string, d: string, c: char)
    requires s == a + [c] + b + [c] + d && Lacks(b, c) && Lacks(d, c)
    ensures RSplit2(s, c) == Some((a, b, d))
  {
    var ab := a + [c] + b;
    LastIndexAt(s, ab, c, d);
    LastIndexAt(ab, a, c, b);
    assert s[..|a|] == a && s[|a| + 1..|ab|] == b;
  }

  /** _BOOTH_ID_RE matches exactly the strings slug-digits-code, and the split finds that reading. */
  lemma BoothIdReIsTheGrammar(s: string)
    ensures BoothIdRe(s) <==> exists slug, digits, code ::
              s == slug + "-" + digits + "-" + code && SlugRe(slug) && Digits(digits) && CodeRe(code)
  {
    if BoothIdRe(s) {
      var (slug, digits, code) := RSplit2(s, '-').value;
      assert s == slug + "-" + digits + "-" + code;
    }
    forall slug, digits, code | s == slug + "-" + digits + "-" + code && SlugRe(slug) && Digits(digits) && CodeRe(code)
      ensures BoothIdRe(s)
    {
      assert Lacks(digits, '-') && Lacks(code, '-');
      RSplit2Of(s, slug, digits, code, '-');
    }
  }

  // ---- Booth IDs ----

  /** Reading any ID slug-digits-code, whatever leading zeros the digits have. */
  lemma ReadOfParts(iso: set<string>, n: string, slug: string, digits: string, code: string)
    requires Digits(digits) && Normal(iso, Coordinates(slug, ParseInt(digits), code))
    requires n == slug + "-" + digits + "-" + code
    ensures ReadBoothId(iso, n) == Some(Coordinates(slug, ParseInt(digits), code))
  {
    NormalIsKept(iso, Coordinates(slug, ParseInt(digits), code));
    assert BoothIdRe(n) && RSplit2(n, '-') == Some((slug, digits, code)) by {
      CodeIsPlain(code);
      assert Lacks(digits, '-');
      RSplit2Of(n, slug, digits, code, '-');
    }
  }

  lemma PartsJoinPlain(iso: set<string>, n: string, slug: string, digits: string, code: string)
    requires Digits(digits) && Normal(iso, Coordinates(slug, ParseInt(digits), code))
    requires n == slug + "-" + digits + "-" + code
    ensures Plain(n)
  {
    PartsArePlain(iso, Coordinates(slug, ParseInt(digits), code));
  }

  lemma ParseOfParts(iso: set<string>, id: string, slug: string, digits: string, code: string)
    requires Digits(digits) && Normal(iso, Coordinates(slug, ParseInt(digits), code))
    requires id == slug + "-" + digits + "-" + code
    ensures ParseBoothId(iso, id) == Some(Coordinates(slug, ParseInt(digits), code))
  {
    ReadOfParts(iso, id, slug, digits, code);
    PartsJoinPlain(iso, id, slug, digits, code);
    PlainIsKept(id);
  }

  /** Round trip: the ID made from any accepted input parses back to the normalised coordinates. */
  lemma ParseMake(iso: set<string>, slug: string, room: int, code: string)
    requires MakeBoothId(iso, slug, room, code).Some?
    ensures ParseBoothId(iso, MakeBoothId(iso, slug, room, code).value) == Validate(iso, slug, room, code)
  {
    var c := Validate(iso, slug, room, code).value;
    ValidatedIsNormal(iso, slug, room, code);
    ParseShow(c.room);
    ParseOfParts(iso, BoothIdOf(c), c.slug, Show(c.room), c.code);
  }

  /** make_booth_id takes a slug exactly if, trimmed and in lower case, it has at most 64 characters and is as
      described, and that is the form it uses. */
  lemma SlugIsTakenExactly(iso: set<string>, slug: string, room: nat, code: string)
    requires ValidateLanguageCode(iso, code).Some?
    ensures var s, id := Lower(Strip(slug)), MakeBoothId(iso, slug, room, code);
            && (id.Some? <==> Described(s) && |s| <= 64)
            && (id.Some? ==> id.value == s + "-" + Show(room) + "-" + ValidateLanguageCode(iso, code).value)
  {
    SlugReIsItsDescription(Lower(Strip(slug)));
  }

  /** A language code is taken exactly if, trimmed and in lower case, it is "floor" or two letters of the
      catalogue of codes. */
  lemma CodeIsTakenExactly(iso: set<string>, code: string)
    ensures var c := Lower(Strip(code));
            var two := |c| == 2 && 'a' <= c[0] <= 'z' && 'a' <= c[1] <= 'z' && c in iso;
            ValidateLanguageCode(iso, code) == if c == "floor" || two then Some(c) else None
  {
  }

  /** Two inputs make the same ID exactly if their normalised coordinates agree. */
  lemma MakeIsInjective(iso: set<string>, s1: string, r1: int, c1: string, s2: string, r2: int, c2: string)
    requires MakeBoothId(iso, s1, r1, c1).Some? && MakeBoothId(iso, s2, r2, c2).Some?
    ensures MakeBoothId(iso, s1, r1, c1) == MakeBoothId(iso, s2, r2, c2)
            <==> Validate(iso, s1, r1, c1) == Validate(iso, s2, r2, c2)
  {
    ParseMake(iso, s1, r1, c1);
    ParseMake(iso, s2, r2, c2);
  }

  /** A normalised ID is slug-digits-code for some digits that spell the room number. */
  ghost predicate Spells(n: string, c: Coordinates) {
    exists digits :: Digits(digits) && ParseInt(digits) == c.room && n == c.slug + "-" + digits + "-" + c.code
  }

  lemma CodeSurvives(iso: set<string>, code: string)
    requires CodeRe(code) && ValidateLanguageCode(iso, code).Some?
    ensures code == FLOOR || (TwoLetters(code) && code in iso)
  {
    CodeIsPlain(code);
    PlainIsKept(code);
  }

  lemma SlugSurvives(slug: string)
    requires SlugRe(slug) && ValidateEventSlug(slug).Some?
    ensures slug != "" && |slug| <= EVENT_SLUG_MAX_LENGTH
  {
    SlugReIsItsDescription(slug);
    PlainIsKept(slug);
  }

  lemma RSplit2Joins(s: string, c: char)
    requires RSplit2(s, c).Some?
    ensures var (a, b, d) := RSplit2(s, c).value; s == a + [c] + b + [c] + d
  {
  }

  lemma ReadSpells(iso: set<string>, n: string)
    requires ReadBoothId(iso, n).Some?
    ensures Normal(iso, ReadBoothId(iso, n).value) && Spells(n, ReadBoothId(iso, n).value)
  {
    var (slug, digits, code) := RSplit2(n, '-').value;
    assert Normal(iso, Coordinates(slug, ParseInt(digits), code)) by {
      SlugSurvives(slug);
      CodeSurvives(iso, code);
    }
    RSplit2Joins(n, '-');
  }

  lemma SpelledReads(iso: set<string>, n: string, c: Coordinates)
    requires Normal(iso, c) && Spells(n, c)
    ensures ReadBoothId(iso, n) == Some(c)
  {
    var digits :| Digits(digits) && ParseInt(digits) == c.room && n == c.slug + "-" + digits + "-" + c.code;
    ReadOfParts(iso, n, c.slug, digits, c.code);
  }

  /** What parse_booth_id accepts and returns: exactly the trimmed, lower-cased strings slug-digits-code
      with a slug of at most 64 characters and a recognised code. */
  lemma ParseMeaning(iso: set<string>, id: string, c: Coordinates)
    ensures ParseBoothId(iso, id) == Some(c) <==> Normal(iso, c) && Spells(Lower(Strip(id)), c)
  {
    var n := Lower(Strip(id));
    if ReadBoothId(iso, n) == Some(c) { ReadSpells(iso, n); }
    if Normal(iso, c) && Spells(n, c) { SpelledReads(iso, n, c); }
  }

  // ---- IDs and paths ----

  lemma SplitThree(s: string, a: string, b: string, d: string, c: char)
    requires s == a + [c] + b + [c] + d && Lacks(a, c) && Lacks(b, c) && Lacks(d, c)
    ensures Split(s, c) == [a, b, d]
  {
    LastIndexAt(s, a + [c] + b, c, d);
    LastIndexAt(a + [c] + b, a, c, b);
    LastIndexNone(a, c);
    assert Split(a, c) == [a];
    assert Split(a + [c] + b, c) == [a, b];
  }

  lemma ParsePathOf(iso: set<string>, c: Coordinates)
    requires Normal(iso, c)
    ensures ParsePath(iso, PathOf(c)) == Some(c)
  {
    var p := PathOf(c);
    PartsArePlain(iso, c);
    StripKeeps(p, Blank);
    StripKeeps(p, Only('/'));
    hide Split, Show, ParseInt, Digits, Validate, Normal, StripOf;
    SplitThree(p, c.slug, Show(c.room), c.code, '/');
    ParseShow(c.room);
    NormalIsKept(iso, c);
  }

  lemma ParsedIsNormal(iso: set<string>, id: string)
    ensures ParseBoothId(iso, id).Some? ==> Normal(iso, ParseBoothId(iso, id).value)
    ensures ParsePath(iso, id).Some? ==> Normal(iso, ParsePath(iso, id).value)
  {
    if ParseBoothId(iso, id).Some? { ReadSpells(iso, Lower(Strip(id))); }
    if ParsePath(iso, id).Some? {
      var parts := Split(StripOf(Strip(id), Only('/')), '/');
      ValidatedIsNormal(iso, parts[0], ParseInt(parts[1]), parts[2]);
    }
  }

  /** The canonical ID of some accepted coordinates. */
  ghost predicate CanonicalId(iso: set<string>, id: string) {
    exists c :: Normal(iso, c) && id == BoothIdOf(c)
  }

  ghost predicate CanonicalPath(iso: set<string>, path: string) {
    exists c :: Normal(iso, c) && path == PathOf(c)
  }

  lemma ParseIdOf(iso: set<string>, c: Coordinates)
    requires Normal(iso, c)
    ensures ParseBoothId(iso, BoothIdOf(c)) == Some(c)
  {
    ParseShow(c.room);
    ParseOfParts(iso, BoothIdOf(c), c.slug, Show(c.room), c.code);
  }

  /** On canonical forms the two conversions are inverse to each other. */
  lemma ConversionsAreInverse(iso: set<string>, s: string)
    ensures CanonicalId(iso, s) ==>
              && BoothIdToPath(iso, s).Some? && CanonicalPath(iso, BoothIdToPath(iso, s).value)
              && PathToBoothId(iso, BoothIdToPath(iso, s).value) == Some(s)
    ensures CanonicalPath(iso, s) ==>
              && PathToBoothId(iso, s).Some? && CanonicalId(iso, PathToBoothId(iso, s).value)
              && BoothIdToPath(iso, PathToBoothId(iso, s).value) == Some(s)
  {
    if CanonicalId(iso, s) {
      var c :| Normal(iso, c) && s == BoothIdOf(c);
      ParseIdOf(iso, c);
      ParsePathOf(iso, c);
    }
    if CanonicalPath(iso, s) {
      var c :| Normal(iso, c) && s == PathOf(c);
      ParseIdOf(iso, c);
      ParsePathOf(iso, c);
    }
  }

  /** The path made from coordinates is the path of the ID made from them; without a room both are refused for
      the same slugs and codes, and the path says None. */
  lemma MadePathIsPathOfMadeId(iso: set<string>, slug: string, room: int, code: string)
    ensures MakeMediamtxPath(iso, slug, Some(room), code)
            == match MakeBoothId(iso, slug, room, code) case Some(id) => BoothIdToPath(iso, id) case None => None
    ensures MakeMediamtxPath(iso, slug, None, code)
            == match MakeMediamtxPath(iso, slug, Some(7), code)
               case Some(_) =>
                 Some(Lower(Strip(slug)) + "/None/" + Lower(Strip(code)))
               case None => None
  {
    hide ParseBoothId, BoothIdOf, SlugRe;
    if MakeBoothId(iso, slug, room, code).Some? { ParseMake(iso, slug, room, code); }
    if Validate(iso, slug, 7, code).Some? {
      var c := Validate(iso, slug, 7, code).value;
      assert c.slug + "/" + "None" + "/" + c.code == c.slug + "/None/" + c.code;
    }
  }

  /** One conversion makes any accepted ID canonical: case, blanks and leading zeros are gone, the
      coordinates are the same, and converting there and back again changes nothing more. */
  lemma IdConversionCanonicalises(iso: set<string>, id: string)
    requires ParseBoothId(iso, id).Some?
    ensures var c := ParseBoothId(iso, id).value;
            && BoothIdToPath(iso, id) == Some(PathOf(c)) && CanonicalPath(iso, PathOf(c))
            && PathToBoothId(iso, PathOf(c)) == Some(BoothIdOf(c)) && CanonicalId(iso, BoothIdOf(c))
            && ParseBoothId(iso, BoothIdOf(c)) == Some(c) && BoothIdToPath(iso, BoothIdOf(c)) == Some(PathOf(c))
  {
    ParsedIsNormal(iso, id);
    var c := ParseBoothId(iso, id).value;
    ParseIdOf(iso, c);
    ParsePathOf(iso, c);
  }

  lemma PathConversionCanonicalises(iso: set<string>, path: string)
    requires ParsePath(iso, path).Some?
    ensures var c := ParsePath(iso, path).value;
            && PathToBoothId(iso, path) == Some(BoothIdOf(c)) && CanonicalId(iso, BoothIdOf(c))
            && BoothIdToPath(iso, BoothIdOf(c)) == Some(PathOf(c)) && CanonicalPath(iso, PathOf(c))
            && ParsePath(iso, PathOf(c)) == Some(c) && PathToBoothId(iso, PathOf(c)) == Some(BoothIdOf(c))
  {
    ParsedIsNormal(iso, path);
    var c := ParsePath(iso, path).value;
    ParseIdOf(iso, c);
    ParsePathOf(iso, c);
  }

  /** Two IDs have one media path exactly if they parse to the same coordinates, however they spell them. */
  lemma SharePathExactly(iso: set<string>, i: string, j: string)
    requires ParseBoothId(iso, i).Some? && ParseBoothId(iso, j).Some?
    ensures BoothIdToPath(iso, i) == BoothIdToPath(iso, j) <==> ParseBoothId(iso, i) == ParseBoothId(iso, j)
  {
    ParsedIsNormal(iso, i);
    ParsedIsNormal(iso, j);
    ParsePathOf(iso, ParseBoothId(iso, i).value);
    ParsePathOf(iso, ParseBoothId(iso, j).value);
  }

  /** IDs that differ in leading zeros do: two IDs, one path. */
  lemma AliasesShareAPath(iso: set<string>, slug: string, digits: string, code: string)
    requires Digits(digits) && Normal(iso, Coordinates(slug, ParseInt(digits), code))
    ensures var i, j := slug + "-" + digits + "-" + code, slug + "-" + ("0" + digits) + "-" + code;
            && i != j && BoothIdToPath(iso, i) == BoothIdToPath(iso, j)
            && BoothIdToPath(iso, i) == Some(PathOf(Coordinates(slug, ParseInt(digits), code)))
  {
    var i, j := slug + "-" + digits + "-" + code, slug + "-" + ("0" + digits) + "-" + code;
    LeadingZero(digits);
    ParseOfParts(iso, i, slug, digits, code);
    ParseOfParts(iso, j, slug, "0" + digits, code);
    assert |j| == |i| + 1;
  }

  lemma MiddleIs(id: string, slug: string, digits: string, code: string)
    requires id == slug + "-" + digits + "-" + code
    ensures |id| >= |slug| + |code| + 2 && id[|slug| + 1..|id| - |code| - 1] == digits
  {
  }

  /** An ID already has its canonical form exactly if it is trimmed, lower-case and without leading zeros. */
  lemma CanonicalMeaning(iso: set<string>, id: string, slug: string, digits: string, code: string)
    requires Digits(digits) && Normal(iso, Coordinates(slug, ParseInt(digits), code))
    requires id == slug + "-" + digits + "-" + code
    ensures CanonicalId(iso, id) <==> digits[0] != '0' || |digits| == 1
  {
    var c := Coordinates(slug, ParseInt(digits), code);
    ParseOfParts(iso, id, slug, digits, code);
    ShowParse(digits);
    if CanonicalId(iso, id) {
      var d :| Normal(iso, d) && id == BoothIdOf(d);
      ParseIdOf(iso, d);
      MiddleIs(id, slug, digits, code);
      MiddleIs(id, slug, Show(c.room), code);
    }
  }

  lemma RoomlessParts(iso: set<string>, c: Coordinates, none: string)
    requires Normal(iso, c) && Lacks(none, '/') && !Digits(none)
    ensures ParsePath(iso, c.slug + "/" + none + "/" + c.code) == None
  {
    var p := c.slug + "/" + none + "/" + c.code;
    PartsArePlain(iso, c);
    StripKeeps(p, Blank);
    StripKeeps(p, Only('/'));
    SplitThree(p, c.slug, none, c.code, '/');
  }

  /** A path made without a room is not the path of any booth. */
  lemma RoomlessPathIsNoBooth(iso: set<string>, slug: string, code: string)
    requires MakeMediamtxPath(iso, slug, None, code).Some?
    ensures PathToBoothId(iso, MakeMediamtxPath(iso, slug, None, code).value) == None
  {
    ValidatedIsNormal(iso, slug, 0, code);
    assert !IsDigit("None"[0]);
    RoomlessParts(iso, Validate(iso, slug, 0, code).value, "None");
  }
}
