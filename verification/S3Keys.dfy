/** S3 object keys: the builders and the recogniser of snapshot PAGE XML keys. */
module S3Keys {
  import opened Text
  import opened Decimal

  const DOCUMENTS := "documents/"
  const SNAPSHOTS := "/transkribus/snapshots/"
  const PAGES := "/pages/"
  const PAGE_XML := ".page.xml"
  const SOURCE := "/source/"

  // ---------------------------------------------------------------- builders

  /** `build_transkribus_snapshot_page_xml_s3_key`; None where it raises ValueError. */
  function BuildSnapshotKey(document: int, snapshot: int, page: int): Option<string> {
    if document < 1 || snapshot < 1 || page < 1 then None
    else Some(DOCUMENTS + (Print(document) + (SNAPSHOTS + (Print(snapshot) + (PAGES + (Print(page) + PAGE_XML))))))
  }

  /** `build_document_source_file_s3_key`, for an extension already derived from the MIME type. */
  function BuildSourceFileKey(document: nat, orderIndex: nat, ext: string): string {
    DOCUMENTS + (Print(document) + (SOURCE + (Print(orderIndex) + ("." + ext))))
  }

  /** `build_document_thumbnail_s3_key`. */
  function BuildDocumentThumbnailKey(document: nat): string {
    DOCUMENTS + (Print(document) + "/thumb_400.jpg")
  }

  /** `build_photo_thumbnail_s3_key`. */
  function BuildPhotoThumbnailKey(photo: nat): string {
    "photos/" + (Print(photo) + "/thumb_400.jpg")
  }

  /** `build_photo_original_s3_key`, for an extension of the fixed table. */
  function BuildPhotoOriginalKey(photo: nat, ext: string): string {
    "photos/" + (Print(photo) + ("/original." + ext))
  }

  /** The keys as they read. */
  lemma KeysWritten(document: nat, snapshot: nat, page: nat, ext: string)
    ensures BuildSnapshotKey(document, snapshot, page) ==
            if document == 0 || snapshot == 0 || page == 0 then None
            else Some("documents/" + (Print(document) + ("/transkribus/snapshots/" + (Print(snapshot) + ("/pages/" +
                      (Print(page) + ".page.xml"))))))
    ensures BuildSourceFileKey(document, page, ext) ==
            "documents/" + (Print(document) + ("/source/" + (Print(page) + ("." + ext))))
    ensures BuildDocumentThumbnailKey(document) == "documents/" + Print(document) + "/thumb_400.jpg"
    ensures BuildPhotoThumbnailKey(document) == "photos/" + Print(document) + "/thumb_400.jpg"
    ensures BuildPhotoOriginalKey(document, ext) == "photos/" + Print(document) + "/original." + ext
    ensures Print(7) == "7" && Print(40) == "40"
  {
    hide Print;
    Numerals();
  }

  lemma Numerals()
    ensures Print(7) == "7" && Print(40) == "40"
  {
    assert Print(4) == "4";
  }

  // ---------------------------------------------------------------- recogniser

  /** `str.strip()` removes exactly these characters at either end. */
  predicate IsSpace(c: char) {
    || '\t' <= c <= '\r' || '\U{001C}' <= c <= ' ' || c == '\U{0085}' || c == '\U{00A0}' || c == '\U{1680}'
    || '\U{2000}' <= c <= '\U{200A}' || c == '\U{2028}' || c == '\U{2029}' || c == '\U{202F}' || c == '\U{205F}'
    || c == '\U{3000}'
  }

  function StripLeft(s: string): string {
    if s != "" && IsSpace(s[0]) then StripLeft(s[1..]) else s
  }

  function StripRight(s: string): string {
    if s != "" && IsSpace(s[|s| - 1]) then StripRight(s[..|s| - 1]) else s
  }

  function Strip(s: string): string { StripRight(StripLeft(s)) }

  ghost predicate Spaces(s: string) { forall c <- s :: IsSpace(c) }

  /** `strip` takes nothing but space characters, from the ends only, and all of them there. */
  lemma StripWritten(s: string)
    ensures var t := Strip(s);
            && (exists front, back :: s == front + (t + back) && Spaces(front) && Spaces(back))
            && (t != "" ==> !IsSpace(t[0]) && !IsSpace(t[|t| - 1]))
  {
    var u := StripLeft(s);
    var t := StripRight(u);
    StripLeftWritten(s);
    StripRightWritten(u);
    var front := s[..|s| - |u|];
    var back := u[|t|..];
    assert s == front + (t + back);
  }

  lemma {:induction false} StripLeftWritten(s: string)
    ensures var u := StripLeft(s);
            && |u| <= |s| && s == s[..|s| - |u|] + u && Spaces(s[..|s| - |u|]) && (u != "" ==> !IsSpace(u[0]))
  {
    if s != "" && IsSpace(s[0]) {
      var r := s[1..];
      var u := StripLeft(r);
      StripLeftWritten(r);
      var front := r[..|r| - |u|];
      assert s == [s[0]] + r;
      assert s == ([s[0]] + front) + u;
      assert s[..|s| - |u|] == [s[0]] + front;
    }
  }

  lemma {:induction false} StripRightWritten(s: string)
    ensures var t := StripRight(s);
            && t <= s && Spaces(s[|t|..]) && (t != "" ==> !IsSpace(t[|t| - 1]))
  {
    if s != "" && IsSpace(s[|s| - 1]) {
      var r := s[..|s| - 1];
      var t := StripRight(r);
      StripRightWritten(r);
      assert s[|t|..] == r[|t|..] + [s[|s| - 1]];
    }
  }

  /** The longest prefix of characters `\d` matches. `\d` matches every Unicode decimal
      digit, so the set of digits is a parameter; ASCII digits are always in it. */
  function Digits(s: string, wide: char -> bool): (r: string)
    ensures r <= s
    ensures forall c <- r :: IsDigit(c) || wide(c)
    ensures |r| < |s| ==> !(IsDigit(s[|r|]) || wide(s[|r|]))
  {
    if s == "" || !(IsDigit(s[0]) || wide(s[0])) then ""
    else
      var r := Digits(s[1..], wide);
      assert forall c <- [s[0]] + r :: IsDigit(c) || wide(c);
      [s[0]] + r
  }

  /** `[1-9]\d*` at the front of s: the matched text and the rest. */
  function Numeral(s: string, wide: char -> bool): Option<(string, string)> {
    if s == "" || !('1' <= s[0] <= '9') then None
    else
      var n := [s[0]] + Digits(s[1..], wide);
      Some((n, s[|n|..]))
  }

  function Literal(s: string, literal: string): Option<string> {
    if literal <= s then Some(s[|literal|..]) else None
  }

  /** `literal` then `[1-9]\d*` at the front of s. */
  function LabelledNumeral(s: string, literal: string, wide: char -> bool): Option<(string, string)> {
    match Literal(s, literal)
    case None => None
    case Some(rest) => Numeral(rest, wide)
  }

  /** The whole-string match of _TRANSKRIBUS_SNAPSHOT_PAGE_XML_KEY_RE, with its three groups. */
  function MatchSnapshotKey(s: string, wide: char -> bool): Option<(string, string, string)> {
    match LabelledNumeral(s, DOCUMENTS, wide)
    case None => None
    case Some((document, s1)) =>
      match LabelledNumeral(s1, SNAPSHOTS, wide)
      case None => None
      case Some((snapshot, s2)) =>
        match LabelledNumeral(s2, PAGES, wide)
        case None => None
        case Some((page, s3)) => if s3 == PAGE_XML then Some((document, snapshot, page)) else None
  }

  /** `is_transkribus_snapshot_page_xml_s3_key`. */
  predicate IsSnapshotKey(key: string, wide: char -> bool) {
    MatchSnapshotKey(Strip(key), wide).Some?
  }

  // ---------------------------------------------------------------- numerals at the front

  /** The text after a numeral starts with something `\d` does not match. */
  ghost predicate Stops(rest: string, wide: char -> bool) {
    rest == "" || !(IsDigit(rest[0]) || wide(rest[0]))
  }

  lemma DigitsOfConcat(a: string, b: string, wide: char -> bool)
    requires (forall c <- a :: IsDigit(c) || wide(c)) && Stops(b, wide)
    ensures Digits(a + b, wide) == a
  {
    if a == "" {
      assert a + b == b;
    } else {
      assert (a + b)[1..] == a[1..] + b;
      DigitsOfConcat(a[1..], b, wide);
    }
  }

  /** A labelled numeral in front of a text that stops it is read back. */
  lemma LabelledNumeralOf(literal: string, n: string, rest: string, wide: char -> bool)
    requires n != "" && '1' <= n[0] <= '9' && (forall c <- n[1..] :: IsDigit(c) || wide(c)) && Stops(rest, wide)
    ensures LabelledNumeral(literal + (n + rest), literal, wide) == Some((n, rest))
  {
    assert (literal + (n + rest))[|literal|..] == n + rest;
    assert (n + rest)[1..] == n[1..] + rest;
    DigitsOfConcat(n[1..], rest, wide);
    assert [n[0]] + n[1..] == n;
    assert (n + rest)[|n|..] == rest;
  }

  lemma LabelledNumeralOfPrint(literal: string, n: nat, rest: string, wide: char -> bool)
    requires n > 0 && Stops(rest, wide)
    ensures LabelledNumeral(literal + (Print(n) + rest), literal, wide) == Some((Print(n), rest))
  {
    hide Print;
    PrintHasNoLeadingZero(n);
    assert forall c <- Print(n)[1..] :: c in Print(n);
    assert IsDigit(Print(n)[0]);
    LabelledNumeralOf(literal, Print(n), rest, wide);
  }

  lemma LabelledNumeralSplits(s: string, literal: string, wide: char -> bool)
    requires LabelledNumeral(s, literal, wide).Some?
    ensures var (n, rest) := LabelledNumeral(s, literal, wide).value;
            && s == literal + (n + rest)
            && n != "" && '1' <= n[0] <= '9'
            && forall c <- n[1..] :: IsDigit(c) || wide(c)
  {
  }

  /** `\d` matches neither of the characters that may follow a numeral in a key. */
  ghost predicate KeyDigits(wide: char -> bool) { !wide('/') && !wide('.') }

  // ---------------------------------------------------------------- round trips

  /** The key starts and ends with a character that strip keeps. */
  lemma StripKeeps(s: string)
    requires s != "" && !IsSpace(s[0]) && !IsSpace(s[|s| - 1])
    ensures Strip(s) == s
  {
  }

  /** Every built snapshot key is recognised, as its own three numerals. */
  lemma BuiltKeyRecognised(document: nat, snapshot: nat, page: nat, wide: char -> bool)
    requires document > 0 && snapshot > 0 && page > 0 && KeyDigits(wide)
    ensures BuildSnapshotKey(document, snapshot, page).Some?
    ensures var key := BuildSnapshotKey(document, snapshot, page).value;
            && IsSnapshotKey(key, wide) && Strip(key) == key
            && MatchSnapshotKey(key, wide) == Some((Print(document), Print(snapshot), Print(page)))
  {
    hide Print, LabelledNumeral, Strip;
    var s3 := PAGE_XML;
    var s2 := PAGES + (Print(page) + s3);
    var s1 := SNAPSHOTS + (Print(snapshot) + s2);
    var key := BuildSnapshotKey(document, snapshot, page).value;
    LabelledNumeralOfPrint(DOCUMENTS, document, s1, wide);
    LabelledNumeralOfPrint(SNAPSHOTS, snapshot, s2, wide);
    LabelledNumeralOfPrint(PAGES, page, s3, wide);
    assert key[0] == 'd' && key[|key| - 1] == 'l';
    StripKeeps(key);
  }

  /** All three numerals of a recognised key are ASCII. */
  ghost predicate AsciiGroups(key: string, wide: char -> bool) {
    match MatchSnapshotKey(Strip(key), wide)
    case None => false
    case Some((d, s, p)) => AllDigits(d) && AllDigits(s) && AllDigits(p)
  }

  lemma GroupsAreTheKey(s: string, wide: char -> bool)
    requires MatchSnapshotKey(s, wide).Some?
    ensures var (document, snapshot, page) := MatchSnapshotKey(s, wide).value;
            && s == DOCUMENTS + (document + (SNAPSHOTS + (snapshot + (PAGES + (page + PAGE_XML)))))
            && document != "" && snapshot != "" && page != ""
            && document[0] != '0' && snapshot[0] != '0' && page[0] != '0'
  {
    hide LabelledNumeral;
    LabelledNumeralSplits(s, DOCUMENTS, wide);
    var (document, s1) := LabelledNumeral(s, DOCUMENTS, wide).value;
    LabelledNumeralSplits(s1, SNAPSHOTS, wide);
    var (snapshot, s2) := LabelledNumeral(s1, SNAPSHOTS, wide).value;
    LabelledNumeralSplits(s2, PAGES, wide);
  }

  /** A matched key is a built key exactly when its three groups are ASCII. */
  lemma BuiltIffAsciiGroups(key: string, wide: char -> bool)
    requires KeyDigits(wide) && IsSnapshotKey(key, wide)
    ensures AsciiGroups(key, wide) <==>
            exists d: nat, s: nat, p: nat :: BuildSnapshotKey(d, s, p) == Some(Strip(key))
  {
    hide Print, Read, MatchSnapshotKey, Strip;
    var s := Strip(key);
    var (document, snapshot, page) := MatchSnapshotKey(s, wide).value;
    GroupsAreTheKey(s, wide);
    if AsciiGroups(key, wide) {
      PrintRead(document);
      PrintRead(snapshot);
      PrintRead(page);
      assert BuildSnapshotKey(Read(document), Read(snapshot), Read(page)) == Some(s);
    }
    if d: nat, n: nat, p: nat :| BuildSnapshotKey(d, n, p) == Some(s) {
      BuiltKeyRecognised(d, n, p, wide);
    }
  }

  /** Different triples have different keys. */
  lemma SnapshotKeyInjective(d: nat, s: nat, p: nat, d': nat, s': nat, p': nat)
    requires BuildSnapshotKey(d, s, p).Some? && BuildSnapshotKey(d, s, p) == BuildSnapshotKey(d', s', p')
    ensures d == d' && s == s' && p == p'
  {
    hide Print, MatchSnapshotKey, Strip;
    BuiltKeyRecognised(d, s, p, ASCII_ONLY);
    BuiltKeyRecognised(d', s', p', ASCII_ONLY);
    PrintInjective(d, d');
    PrintInjective(s, s');
    PrintInjective(p, p');
  }

  /** Among the ASCII characters, `\d` matches the ten digits only. */
  ghost predicate AsciiDigitClass(wide: char -> bool) {
    forall c | c <= '\U{007F}' :: wide(c) ==> IsDigit(c)
  }

  ghost predicate AsciiText(s: string) {
    forall c <- s :: c <= '\U{007F}'
  }

  /** A digit run of ASCII text is a run of ASCII digits. */
  lemma AsciiNumeral(s: string, literal: string, wide: char -> bool)
    requires AsciiDigitClass(wide) && AsciiText(s) && LabelledNumeral(s, literal, wide).Some?
    ensures AllDigits(LabelledNumeral(s, literal, wide).value.0)
    ensures AsciiText(LabelledNumeral(s, literal, wide).value.1)
  {
    hide LabelledNumeral;
    LabelledNumeralSplits(s, literal, wide);
    var (n, rest) := LabelledNumeral(s, literal, wide).value;
    forall c <- n ensures c in s { assert c in n + rest; }
    forall c <- rest ensures c in s { assert c in n + rest; }
    forall c <- n ensures IsDigit(c) { if c != n[0] { assert c in n[1..]; } }
  }

  lemma AsciiTextHasAsciiGroups(key: string, wide: char -> bool)
    requires AsciiDigitClass(wide) && IsSnapshotKey(key, wide) && AsciiText(Strip(key))
    ensures AsciiGroups(key, wide)
  {
    hide LabelledNumeral, Strip, AsciiText;
    var s := Strip(key);
    AsciiNumeral(s, DOCUMENTS, wide);
    var (document, s1) := LabelledNumeral(s, DOCUMENTS, wide).value;
    AsciiNumeral(s1, SNAPSHOTS, wide);
    var (snapshot, s2) := LabelledNumeral(s1, SNAPSHOTS, wide).value;
    AsciiNumeral(s2, PAGES, wide);
  }

  lemma BuiltKeyIsAscii(document: nat, snapshot: nat, page: nat)
    requires BuildSnapshotKey(document, snapshot, page).Some?
    ensures AsciiText(BuildSnapshotKey(document, snapshot, page).value)
  {
    hide Print;
    AsciiConcat(Print(page), PAGE_XML);
    AsciiConcat(PAGES, Print(page) + PAGE_XML);
    AsciiConcat(Print(snapshot), PAGES + (Print(page) + PAGE_XML));
    AsciiConcat(SNAPSHOTS, Print(snapshot) + (PAGES + (Print(page) + PAGE_XML)));
    AsciiConcat(Print(document), SNAPSHOTS + (Print(snapshot) + (PAGES + (Print(page) + PAGE_XML))));
    AsciiConcat(DOCUMENTS, Print(document) + (SNAPSHOTS + (Print(snapshot) + (PAGES + (Print(page) + PAGE_XML)))));
  }

  lemma AsciiConcat(a: string, b: string)
    requires AsciiText(a) && AsciiText(b)
    ensures AsciiText(a + b)
  {
  }

  lemma BuiltTextRecognised(d: nat, s: nat, p: nat, key: string, wide: char -> bool)
    requires AsciiDigitClass(wide) && BuildSnapshotKey(d, s, p) == Some(Strip(key))
    ensures IsSnapshotKey(key, wide) && AsciiText(Strip(key))
  {
    hide Print, MatchSnapshotKey, Strip;
    BuiltKeyRecognised(d, s, p, wide);
    BuiltKeyIsAscii(d, s, p);
  }

  /** After strip a key is the build of some triple exactly when it is recognised and its text
      is ASCII, and then it is the build of one triple only. */
  lemma RecognisedIsBuiltIff(key: string, wide: char -> bool)
    requires AsciiDigitClass(wide)
    ensures IsSnapshotKey(key, wide) && AsciiText(Strip(key)) <==>
            exists d: nat, s: nat, p: nat :: BuildSnapshotKey(d, s, p) == Some(Strip(key))
    ensures forall d: nat, s: nat, p: nat, d': nat, s': nat, p': nat ::
              BuildSnapshotKey(d, s, p) == Some(Strip(key)) == BuildSnapshotKey(d', s', p') ==>
              d == d' && s == s' && p == p'
  {
    hide IsSnapshotKey, Strip, BuildSnapshotKey, AsciiText, AsciiGroups;
    if IsSnapshotKey(key, wide) && AsciiText(Strip(key)) {
      AsciiTextHasAsciiGroups(key, wide);
      BuiltIffAsciiGroups(key, wide);
    }
    if d: nat, s: nat, p: nat :| BuildSnapshotKey(d, s, p) == Some(Strip(key)) {
      BuiltTextRecognised(d, s, p, key, wide);
    }
    forall d: nat, s: nat, p: nat, d': nat, s': nat, p': nat |
      BuildSnapshotKey(d, s, p) == Some(Strip(key)) == BuildSnapshotKey(d', s', p')
      ensures d == d' && s == s' && p == p'
    {
      SnapshotKeyInjective(d, s, p, d', s', p');
    }
  }

  /** A snapshot key whose document id ends in an Arabic-Indic digit one. */
  const WIDE_KEY := DOCUMENTS + ("1\U{0661}" + (SNAPSHOTS + ("1" + (PAGES + ("1" + PAGE_XML)))))

  /** With digits beyond ASCII, a key no builder produces is recognised. */
  lemma WideDigitKeyIsNotBuilt(wide: char -> bool)
    requires KeyDigits(wide) && wide('\U{0661}')
    ensures IsSnapshotKey(WIDE_KEY, wide)
    ensures !exists d: nat, s: nat, p: nat :: BuildSnapshotKey(d, s, p) == Some(Strip(WIDE_KEY))
  {
    hide MatchSnapshotKey, BuildSnapshotKey, Strip;
    WideKeyMatches(wide);
    BuiltIffAsciiGroups(WIDE_KEY, wide);
  }

  lemma WideKeyMatches(wide: char -> bool)
    requires KeyDigits(wide) && wide('\U{0661}')
    ensures Strip(WIDE_KEY) == WIDE_KEY && MatchSnapshotKey(WIDE_KEY, wide) == Some(("1\U{0661}", "1", "1"))
    ensures !AllDigits("1\U{0661}")
  {
    hide Strip, LabelledNumeral;
    var s2 := PAGES + ("1" + PAGE_XML);
    var s1 := SNAPSHOTS + ("1" + s2);
    assert WIDE_KEY[0] == 'd' && WIDE_KEY[|WIDE_KEY| - 1] == 'l';
    StripKeeps(WIDE_KEY);
    assert "1\U{0661}"[1..] == "\U{0661}" && "1"[1..] == "";
    LabelledNumeralOf(DOCUMENTS, "1\U{0661}", s1, wide);
    LabelledNumeralOf(SNAPSHOTS, "1", s2, wide);
    LabelledNumeralOf(PAGES, "1", PAGE_XML, wide);
    assert "1\U{0661}"[1] in "1\U{0661}" && !IsDigit('\U{0661}');
  }

  // ---------------------------------------------------------------- the other builders

  const ASCII_ONLY: char -> bool := (c: char) => false

  lemma DigitsBehind(literal: string, n: nat, rest: string)
    requires Stops(rest, ASCII_ONLY)
    ensures var s := literal + (Print(n) + rest);
            && literal <= s && Digits(s[|literal|..], ASCII_ONLY) == Print(n)
            && s[|literal| + |Print(n)|..] == rest
  {
    hide Print;
    var s := literal + (Print(n) + rest);
    assert s[|literal|..] == Print(n) + rest;
    DigitsOfConcat(Print(n), rest, ASCII_ONLY);
    assert s[|literal| + |Print(n)|..] == rest;
  }

  /** Source-file keys of different documents or positions differ, whatever the extensions. */
  lemma SourceFileKeyInjective(document: nat, index: nat, ext: string, document': nat, index': nat, ext': string)
    requires BuildSourceFileKey(document, index, ext) == BuildSourceFileKey(document', index', ext')
    ensures document == document' && index == index' && ext == ext'
  {
    hide Print, Digits;
    var t, t' := "." + ext, "." + ext';
    var s, s' := SOURCE + (Print(index) + t), SOURCE + (Print(index') + t');
    SameNumeral(DOCUMENTS, document, s, document', s');
    SameNumeral(SOURCE, index, t, index', t');
    assert t[1..] == ext && t'[1..] == ext';
  }

  lemma SameNumeral(literal: string, n: nat, rest: string, n': nat, rest': string)
    requires Stops(rest, ASCII_ONLY) && Stops(rest', ASCII_ONLY)
    requires literal + (Print(n) + rest) == literal + (Print(n') + rest')
    ensures n == n' && rest == rest'
  {
    hide Print, Digits;
    DigitsBehind(literal, n, rest);
    DigitsBehind(literal, n', rest');
    PrintInjective(n, n');
  }

  lemma StripRightKeepsPrefix(a: string, b: string)
    requires a != "" && !IsSpace(a[|a| - 1])
    ensures a <= StripRight(a + b)
  {
    if b == "" {
      assert a + b == a;
    } else {
      assert (a + b)[..|a + b| - 1] == a + b[..|b| - 1];
      StripRightKeepsPrefix(a, b[..|b| - 1]);
    }
  }

  lemma StripKeepsPrefix(a: string, b: string)
    requires a != "" && !IsSpace(a[0]) && !IsSpace(a[|a| - 1])
    ensures a <= Strip(a + b)
  {
    assert (a + b)[0] == a[0];
    StripRightKeepsPrefix(a, b);
  }

  /** Text that starts like a document key and goes on with something other than a snapshot
      section is not recognised. */
  lemma OtherSectionRefused(document: nat, section: string, key: string, wide: char -> bool)
    requires KeyDigits(wide) && |section| >= 3 && section[0] == '/'
    requires section[1] != SNAPSHOTS[1] || section[2] != SNAPSHOTS[2]
    requires DOCUMENTS + (Print(document) + section) <= Strip(key)
    ensures !IsSnapshotKey(key, wide)
  {
    hide Print, Strip, MatchSnapshotKey;
    var s := Strip(key);
    var lead := DOCUMENTS + (Print(document) + section);
    var rest := section + s[|lead|..];
    assert s == lead + s[|lead|..] == DOCUMENTS + (Print(document) + rest);
    if document == 0 {
      PrintHasNoLeadingZero(0);
      assert s[|DOCUMENTS|] == '0';
      ZeroRefused(s, wide);
    } else {
      LabelledNumeralOfPrint(DOCUMENTS, document, rest, wide);
      assert rest[1] == section[1] && rest[2] == section[2];
      SectionRefused(s, Print(document), rest, wide);
    }
  }

  lemma ZeroRefused(s: string, wide: char -> bool)
    requires |s| > |DOCUMENTS| && s[|DOCUMENTS|] == '0'
    ensures MatchSnapshotKey(s, wide).None?
  {
  }

  lemma SectionRefused(s: string, n: string, rest: string, wide: char -> bool)
    requires LabelledNumeral(s, DOCUMENTS, wide) == Some((n, rest))
    requires |rest| >= 3 && (rest[1] != SNAPSHOTS[1] || rest[2] != SNAPSHOTS[2])
    ensures MatchSnapshotKey(s, wide).None?
  {
    hide Numeral;
  }

  /** No key of the other builders is taken for a snapshot page key. */
  lemma OtherKeysRefused(id: nat, index: nat, ext: string, wide: char -> bool)
    requires KeyDigits(wide)
    ensures !IsSnapshotKey(BuildSourceFileKey(id, index, ext), wide)
    ensures !IsSnapshotKey(BuildDocumentThumbnailKey(id), wide)
    ensures !IsSnapshotKey(BuildPhotoThumbnailKey(id), wide)
    ensures !IsSnapshotKey(BuildPhotoOriginalKey(id, ext), wide)
  {
    hide Print, Strip, IsSnapshotKey;
    var source := DOCUMENTS + (Print(id) + SOURCE);
    assert BuildSourceFileKey(id, index, ext) == source + (Print(index) + ("." + ext));
    StripKeepsPrefix(source, Print(index) + ("." + ext));
    OtherSectionRefused(id, SOURCE, BuildSourceFileKey(id, index, ext), wide);
    var thumbnail := DOCUMENTS + (Print(id) + "/thumb_400.jpg");
    assert thumbnail + "" == thumbnail;
    StripKeepsPrefix(thumbnail, "");
    OtherSectionRefused(id, "/thumb_400.jpg", thumbnail, wide);
    StripKeepsPrefix("photos/", Print(id) + "/thumb_400.jpg");
    PhotoRefused(BuildPhotoThumbnailKey(id), wide);
    StripKeepsPrefix("photos/", Print(id) + ("/original." + ext));
    PhotoRefused(BuildPhotoOriginalKey(id, ext), wide);
  }

  lemma PhotoRefused(key: string, wide: char -> bool)
    requires "photos/" <= Strip(key)
    ensures !IsSnapshotKey(key, wide)
  {
    hide Strip;
    assert Strip(key)[0] == 'p' && DOCUMENTS[0] == 'd';
  }
}
