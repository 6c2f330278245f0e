/** The image-tag grammar, the deploy image URI and the test for "only the tag changed". */
module ImageTags {
  import opened Text
  import opened Json

  /** Library facilities the guard relies on and does not define: JSON text parsing
      (`json.loads`, None where it raises) and the digits matched by `\d`. */
  datatype Python = Python(loads: string -> Option<Json>, isDecimal: char -> bool)

  predicate Alnum(c: char) { 'A' <= c <= 'Z' || 'a' <= c <= 'z' || '0' <= c <= '9' }

  predicate TagChar(c: char) { Alnum(c) || c == '_' || c == '.' || c == '-' }

  predicate RegionChar(c: char) { 'a' <= c <= 'z' || '0' <= c <= '9' || c == '-' }

  predicate RepositoryChar(c: char) { Alnum(c) || c == '.' || c == '_' || c == '/' || c == '-' }

  /** ECR_TAG_RE: a letter, digit or underscore, then at most 127 tag characters. */
  predicate EcrTag(t: string) {
    && 1 <= |t| <= 128
    && (Alnum(t[0]) || t[0] == '_')
    && forall c <- t :: TagChar(c)
  }

  /** The longest prefix whose characters all satisfy p. */
  function Span(s: string, p: char -> bool): (r: string)
    ensures r <= s
    ensures forall c <- r :: p(c)
    ensures |r| < |s| ==> !p(s[|r|])
  {
    if s == "" || !p(s[0]) then ""
    else
      var r := Span(s[1..], p);
      assert forall c <- [s[0]] + r :: p(c);
      [s[0]] + r
  }

  lemma SpanOfConcat(a: string, b: string, p: char -> bool)
    requires forall c <- a :: p(c)
    requires b == "" || !p(b[0])
    ensures Span(a + b, p) == a
  {
    if a == "" {
      assert a + b == b;
    } else {
      assert (a + b)[1..] == a[1..] + b;
      SpanOfConcat(a[1..], b, p);
    }
  }

  const ECR_HOST := ".dkr.ecr."
  const AWS_HOST := ".amazonaws.com/"

  /** What follows a fixed prefix. */
  function After(s: string, prefix: string): Option<string> {
    if prefix <= s then Some(s[|prefix|..]) else None
  }

  lemma AfterConcat(a: string, b: string)
    ensures After(a + b, a) == Some(b)
  {
    assert (a + b)[|a|..] == b;
  }

  /** `_parse_image_uri`, reduced to the tag it returns: IMAGE_URI_RE must match the whole
      URI and its repository group must be the expected repository. */
  function ParseImageUri(py: Python, uri: string, repository: string): Option<string> {
    if |uri| < 12 || exists c <- uri[..12] :: !py.isDecimal(c) then None
    else match After(uri[12..], ECR_HOST)
      case None => None
      case Some(fromRegion) => ParseFromRegion(fromRegion, repository)
  }

  function ParseFromRegion(s: string, repository: string): Option<string> {
    var region := Span(s, RegionChar);
    if region == "" then None
    else match After(s[|region|..], AWS_HOST)
      case None => None
      case Some(fromRepository) => ParseFromRepository(fromRepository, repository)
  }

  function ParseFromRepository(s: string, repository: string): Option<string> {
    var found := Span(s, RepositoryChar);
    if found == "" || found != repository then None
    else match After(s[|found|..], ":")
      case None => None
      case Some(tag) => if EcrTag(tag) then Some(tag) else None
  }

  /** The grammar IMAGE_URI_RE describes, with its groups. */
  ghost predicate ImageUri(py: Python, uri: string, account: string, region: string, repository: string, tag: string) {
    && |account| == 12 && (forall c <- account :: py.isDecimal(c))
    && exists rest :: uri == account + (ECR_HOST + rest) && FromRegion(rest, region, repository, tag)
  }

  ghost predicate FromRegion(s: string, region: string, repository: string, tag: string) {
    && region != "" && (forall c <- region :: RegionChar(c))
    && exists rest :: s == region + (AWS_HOST + rest) && FromRepository(rest, repository, tag)
  }

  ghost predicate FromRepository(s: string, repository: string, tag: string) {
    && s == repository + (":" + tag)
    && repository != "" && (forall c <- repository :: RepositoryChar(c))
    && EcrTag(tag)
  }

  lemma FromRepositoryIff(s: string, repository: string, tag: string)
    ensures ParseFromRepository(s, repository) == Some(tag) <==> FromRepository(s, repository, tag)
  {
    hide EcrTag;
    if FromRepository(s, repository, tag) {
      SpanOfConcat(repository, ":" + tag, RepositoryChar);
      assert s[|repository|..] == ":" + tag;
      AfterConcat(":", tag);
    }
    if ParseFromRepository(s, repository) == Some(tag) {
      assert s[|repository|..] == ":" + tag;
      assert s == repository + (":" + tag);
    }
  }

  lemma FromRegionIff(s: string, repository: string, tag: string)
    ensures ParseFromRegion(s, repository) == Some(tag) <==>
            exists region :: FromRegion(s, region, repository, tag)
  {
    hide ParseFromRepository, FromRepository, Span;
    if region :| FromRegion(s, region, repository, tag) {
      var rest :| s == region + (AWS_HOST + rest) && FromRepository(rest, repository, tag);
      SpanOfConcat(region, AWS_HOST + rest, RegionChar);
      assert s[|region|..] == AWS_HOST + rest;
      AfterConcat(AWS_HOST, rest);
      FromRepositoryIff(rest, repository, tag);
    }
    if ParseFromRegion(s, repository) == Some(tag) {
      var region := Span(s, RegionChar);
      var rest := After(s[|region|..], AWS_HOST).value;
      FromRepositoryIff(rest, repository, tag);
      assert s == region + (AWS_HOST + rest);
      assert FromRegion(s, region, repository, tag);
    }
  }

  /** The matcher accepts exactly the grammar, and the tag it returns is the tag group. */
  lemma ParseImageUriIsGrammar(py: Python, uri: string, repository: string, tag: string)
    ensures ParseImageUri(py, uri, repository) == Some(tag) <==>
            exists account, region :: ImageUri(py, uri, account, region, repository, tag)
  {
    hide ParseFromRegion, FromRegion;
    if account, region :| ImageUri(py, uri, account, region, repository, tag) {
      var rest :| uri == account + (ECR_HOST + rest) && FromRegion(rest, region, repository, tag);
      assert uri[..12] == account && uri[12..] == ECR_HOST + rest;
      AfterConcat(ECR_HOST, rest);
      FromRegionIff(rest, repository, tag);
    }
    if ParseImageUri(py, uri, repository) == Some(tag) {
      var rest := After(uri[12..], ECR_HOST).value;
      FromRegionIff(rest, repository, tag);
      var region :| FromRegion(rest, region, repository, tag);
      assert uri == uri[..12] + (ECR_HOST + rest);
      assert ImageUri(py, uri, uri[..12], region, repository, tag);
    }
  }

  // ---------------------------------------------------------------- only the tag changed

  /** What stands in front of the tag in a reference to the repository. */
  function Lead(repository: string): string { "/" + repository + ":" }

  /** `_is_expected_image_change`. */
  predicate IsExpectedImageChange(before: Json, after: Json, repository: string, tag: string) {
    && before.Str? && after.Str?
    && EndsWith(after.s, Lead(repository) + tag)
    && var prefix := DropRight(after.s, |tag|);
       && EndsWith(prefix, Lead(repository))
       && prefix <= before.s
       && EcrTag(before.s[|prefix|..])
  }

  /** s is a reference into the repository with this tag: everything up to and including
      `/{repository}:`, then the tag. */
  ghost predicate Reference(s: string, prefix: string, repository: string, tag: string) {
    s == prefix + tag && EndsWith(prefix, Lead(repository))
  }

  /** Both strings are references with one prefix; only the tag differs. */
  ghost predicate TagChange(before: Json, after: Json, prefix: string, repository: string, oldTag: string,
                            tag: string)
  {
    && before.Str? && after.Str?
    && Reference(before.s, prefix, repository, oldTag)
    && Reference(after.s, prefix, repository, tag)
    && EcrTag(oldTag)
  }

  /** The program's test accepts exactly the changes of a grammatical old tag to the
      expected tag behind an unchanged prefix, and prefix and old tag are determined. */
  lemma ImageChangeIff(before: Json, after: Json, repository: string, tag: string)
    ensures IsExpectedImageChange(before, after, repository, tag) <==>
            tag != "" && exists prefix, oldTag :: TagChange(before, after, prefix, repository, oldTag, tag)
    ensures forall p, o, p', o' ::
              TagChange(before, after, p, repository, o, tag) && TagChange(before, after, p', repository, o', tag) ==>
              p == p' && o == o'
  {
    hide EcrTag, Lead;
    if tag != "" && exists prefix, oldTag :: TagChange(before, after, prefix, repository, oldTag, tag) {
      var prefix, oldTag :| TagChange(before, after, prefix, repository, oldTag, tag);
      ReferenceIsLive(after.s, prefix, repository, tag);
      assert before.s[|prefix|..] == oldTag;
    }
    if IsExpectedImageChange(before, after, repository, tag) {
      var prefix := DropRight(after.s, |tag|);
      LiveIsReference(after.s, repository, tag);
      assert TagChange(before, after, prefix, repository, before.s[|prefix|..], tag);
    }
    forall p, o, p', o' |
      TagChange(before, after, p, repository, o, tag) && TagChange(before, after, p', repository, o', tag)
      ensures p == p' && o == o'
    {
      assert p == after.s[..|after.s| - |tag|] == p';
      assert o == before.s[|p|..] == o';
    }
  }

  lemma ReferenceIsLive(s: string, prefix: string, repository: string, tag: string)
    requires Reference(s, prefix, repository, tag) && tag != ""
    ensures EndsWith(s, Lead(repository) + tag) && DropRight(s, |tag|) == prefix
  {
    hide Lead;
    EndsWithConcat(prefix, tag);
    var lead := Lead(repository);
    EndsWithIsConcat(prefix, lead);
    assert s == prefix[..|prefix| - |lead|] + (lead + tag);
    EndsWithConcat(prefix[..|prefix| - |lead|], lead + tag);
  }

  lemma LiveIsReference(s: string, repository: string, tag: string)
    requires EndsWith(s, Lead(repository) + tag) && EndsWith(DropRight(s, |tag|), Lead(repository))
    ensures tag != "" && Reference(s, DropRight(s, |tag|), repository, tag)
  {
    var lead := Lead(repository);
    assert (lead + tag)[|lead|..] == tag;
    assert s[|s| - |tag|..] == s[|s| - |lead + tag|..][|lead|..];
  }

  lemma ReferenceEndsInColon(s: string, prefix: string, repository: string, tag: string)
    requires Reference(s, prefix, repository, tag)
    ensures prefix != "" && prefix[|prefix| - 1] == ':'
  {
    assert Lead(repository)[|Lead(repository)| - 1] == ':';
  }

  /** A reference determines its prefix and tag, because a tag has no colon. */
  lemma ReferenceIsUnique(s: string, p: string, t: string, p': string, t': string, repository: string)
    requires Reference(s, p, repository, t) && Reference(s, p', repository, t')
    requires EcrTag(t) && EcrTag(t')
    ensures p == p' && t == t'
  {
    ReferenceEndsInColon(s, p, repository, t);
    ReferenceEndsInColon(s, p', repository, t');
    LastCutIsUnique(p, t, p', t', ':');
  }

  /** Two values are references into the repository that differ at most in a grammatical tag. */
  ghost predicate SameImage(before: Json, after: Json, repository: string) {
    exists prefix, oldTag, tag :: TagChange(before, after, prefix, repository, oldTag, tag) && EcrTag(tag)
  }

  lemma SameImageSymmetric(a: Json, b: Json, repository: string)
    requires SameImage(a, b, repository)
    ensures SameImage(b, a, repository)
  {
    var p, o, t :| TagChange(a, b, p, repository, o, t) && EcrTag(t);
    assert TagChange(b, a, p, repository, t, o);
  }

  lemma SameImageTransitive(a: Json, b: Json, c: Json, repository: string)
    requires SameImage(a, b, repository) && SameImage(b, c, repository)
    ensures SameImage(a, c, repository)
  {
    var p, o, t :| TagChange(a, b, p, repository, o, t) && EcrTag(t);
    var p', o', t' :| TagChange(b, c, p', repository, o', t') && EcrTag(t');
    ReferenceIsUnique(b.s, p, t, p', o', repository);
    assert TagChange(a, c, p, repository, o, t');
  }

  /** `_require_live_image`'s test on one string: it ends in the expected repository and tag. */
  predicate IsLiveReference(s: string, repository: string, tag: string) {
    EndsWith(s, Lead(repository) + tag) && EndsWith(DropRight(s, |tag|), Lead(repository))
  }

  lemma LiveIffReference(s: string, repository: string, tag: string)
    requires tag != ""
    ensures IsLiveReference(s, repository, tag) <==> exists prefix :: Reference(s, prefix, repository, tag)
  {
    hide Lead, EndsWith;
    if prefix :| Reference(s, prefix, repository, tag) { ReferenceIsLive(s, prefix, repository, tag); }
    if IsLiveReference(s, repository, tag) { LiveIsReference(s, repository, tag); }
  }

  /** An expected change puts in a live reference, and takes one out only if nothing changed. */
  lemma ExpectedChangeMakesLive(before: Json, after: Json, repository: string, tag: string)
    requires IsExpectedImageChange(before, after, repository, tag) && EcrTag(tag)
    ensures IsLiveReference(after.s, repository, tag)
    ensures IsLiveReference(before.s, repository, tag) <==> before == after
  {
    ImageChangeIff(before, after, repository, tag);
    var p, o :| TagChange(before, after, p, repository, o, tag);
    LiveIffReference(after.s, repository, tag);
    LiveIffReference(before.s, repository, tag);
    if q :| Reference(before.s, q, repository, tag) { ReferenceIsUnique(before.s, p, o, q, tag, repository); }
  }
}
