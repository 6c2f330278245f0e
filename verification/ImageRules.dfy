/** The image grammars and tests, in the words of the patterns themselves. Characters are given
    by their code points. */
module ImageRules {
  import opened Text
  import opened Json
  import opened ImageTags

  /** `[A-Za-z0-9]` and these other characters. */
  predicate Word(c: char, others: string) {
    65 <= c as int <= 90 || 97 <= c as int <= 122 || 48 <= c as int <= 57 || c in others
  }

  /** `[A-Za-z0-9_][A-Za-z0-9_.-]{0,127}`. */
  ghost predicate WrittenTag(t: string) {
    exists c, rest :: t == [c] + rest && Word(c, "_") && |rest| <= 127 && forall d <- rest :: Word(d, "_.-")
  }

  lemma TagWritten(t: string)
    ensures EcrTag(t) <==> WrittenTag(t)
  {
    if c, rest :| t == [c] + rest && Word(c, "_") && |rest| <= 127 && forall d <- rest :: Word(d, "_.-") {
      forall d <- t ensures TagChar(d) { if d != c { assert d in rest; } }
    }
    if EcrTag(t) {
      var c, rest := t[0], t[1..];
      assert t == [c] + rest;
      forall d <- rest ensures Word(d, "_.-") { assert d in t; PlainTagChar(d); }
    }
  }

  lemma PlainTagChar(c: char)
    ensures TagChar(c) <==> Word(c, "_.-")
  {
    assert "_.-" == ['_', '.', '-'];
  }

  /** `\d{12}`, `.dkr.ecr.`, `[a-z0-9-]+`, `.amazonaws.com/`, `[A-Za-z0-9._/-]+`, `:` and a tag. */
  ghost predicate WrittenUri(py: Python, uri: string, account: string, region: string, repository: string,
                             tag: string) {
    && uri == account + (".dkr.ecr." + (region + (".amazonaws.com/" + (repository + (":" + tag)))))
    && |account| == 12 && (forall c <- account :: py.isDecimal(c))
    && region != "" && (forall c <- region :: 97 <= c as int <= 122 || 48 <= c as int <= 57 || c == '-')
    && repository != "" && (forall c <- repository :: Word(c, "._/-"))
    && WrittenTag(tag)
  }

  lemma UriIff(py: Python, uri: string, account: string, region: string, repository: string, tag: string)
    ensures ImageUri(py, uri, account, region, repository, tag) <==>
            WrittenUri(py, uri, account, region, repository, tag)
  {
    hide EcrTag, WrittenTag;
    TagWritten(tag);
    forall c ensures RepositoryChar(c) <==> Word(c, "._/-") { assert "._/-" == ['.', '_', '/', '-']; }
    if WrittenUri(py, uri, account, region, repository, tag) {
      var s := repository + (":" + tag);
      var t := region + (AWS_HOST + s);
      assert FromRepository(s, repository, tag);
      assert FromRegion(t, region, repository, tag);
      assert uri == account + (ECR_HOST + t);
    }
    if ImageUri(py, uri, account, region, repository, tag) {
      var t :| uri == account + (ECR_HOST + t) && FromRegion(t, region, repository, tag);
      var s :| t == region + (AWS_HOST + s) && FromRepository(s, repository, tag);
    }
  }

  /** The URI is accepted with a tag if and only if it is written as the pattern says. */
  lemma UriWritten(py: Python, uri: string, repository: string, tag: string)
    ensures ParseImageUri(py, uri, repository) == Some(tag) <==>
            exists account, region :: WrittenUri(py, uri, account, region, repository, tag)
  {
    hide ParseImageUri, ImageUri, WrittenUri;
    ParseImageUriIsGrammar(py, uri, repository, tag);
    forall account, region
      ensures ImageUri(py, uri, account, region, repository, tag) <==>
              WrittenUri(py, uri, account, region, repository, tag)
    {
      UriIff(py, uri, account, region, repository, tag);
    }
  }

  /** s is any text, then `/{repository}:{tag}`. */
  ghost predicate WrittenReference(s: string, front: string, repository: string, tag: string) {
    s == front + ("/" + repository + ":" + tag)
  }

  lemma ReferenceWritten(s: string, repository: string, tag: string)
    ensures (exists prefix :: Reference(s, prefix, repository, tag)) <==>
            exists front :: WrittenReference(s, front, repository, tag)
  {
    if prefix :| Reference(s, prefix, repository, tag) { FrontOfReference(s, prefix, repository, tag); }
    if front :| WrittenReference(s, front, repository, tag) {
      var prefix := front + Lead(repository);
      EndsWithConcat(front, Lead(repository));
      assert Reference(s, prefix, repository, tag);
    }
  }

  lemma FrontOfReference(s: string, prefix: string, repository: string, tag: string)
    requires Reference(s, prefix, repository, tag)
    ensures |prefix| >= |repository| + 2
    ensures prefix == prefix[..|prefix| - |repository| - 2] + ("/" + repository + ":")
    ensures WrittenReference(s, prefix[..|prefix| - |repository| - 2], repository, tag)
  {
    EndsWithIsConcat(prefix, Lead(repository));
  }

  /** A string is a live reference if and only if it ends in `/{repository}:{tag}`. */
  lemma LiveWritten(s: string, repository: string, tag: string)
    requires tag != ""
    ensures IsLiveReference(s, repository, tag) <==> exists front :: WrittenReference(s, front, repository, tag)
  {
    hide IsLiveReference, Reference, WrittenReference;
    LiveIffReference(s, repository, tag);
    ReferenceWritten(s, repository, tag);
  }

  /** Only the tag behind one text that ends in `/{repository}:` changes. */
  ghost predicate WrittenChange(before: Json, after: Json, front: string, repository: string, oldTag: string,
                                tag: string) {
    && before.Str? && after.Str? && tag != "" && WrittenTag(oldTag)
    && WrittenReference(before.s, front, repository, oldTag) && WrittenReference(after.s, front, repository, tag)
  }

  /** The test for an expected image change, written out. */
  lemma ChangeWritten(before: Json, after: Json, repository: string, tag: string)
    ensures IsExpectedImageChange(before, after, repository, tag) <==>
            exists front, oldTag :: WrittenChange(before, after, front, repository, oldTag, tag)
  {
    hide IsExpectedImageChange, EcrTag, WrittenTag;
    ImageChangeIff(before, after, repository, tag);
    if prefix, oldTag :| tag != "" && TagChange(before, after, prefix, repository, oldTag, tag) {
      TagWritten(oldTag);
      FrontOfReference(before.s, prefix, repository, oldTag);
      FrontOfReference(after.s, prefix, repository, tag);
      assert WrittenChange(before, after, prefix[..|prefix| - |repository| - 2], repository, oldTag, tag);
    }
    if front, oldTag :| WrittenChange(before, after, front, repository, oldTag, tag) {
      TagWritten(oldTag);
      var prefix := front + Lead(repository);
      EndsWithConcat(front, Lead(repository));
      assert TagChange(before, after, prefix, repository, oldTag, tag);
    }
  }
}
