/** How many live references the concrete plans hold: the disguised plan is accepted, leaves the
    web task's count alone, and reviewing it again is a no-op although the web task held a live
    reference before. */
module LiveCounts {
  import opened Text
  import opened Json
  import opened Strings
  import opened ImageTags
  import opened Roles
  import opened RoleRules
  import opened Guard
  import opened GuardTheorems
  import opened SoundnessExact
  import opened DeployExact
  import opened Scenarios
  import opened SampleTemplates
  import opened Plans

  // ---------------------------------------------------------------- strings that are no references

  /** A live reference has a slash, and a colon with no slash behind it. */
  lemma LiveShape(s: string, repository: string, tag: string)
    requires EcrTag(tag) && IsLiveReference(s, repository, tag)
    ensures '/' in s && exists i :: 0 <= i < |s| && s[i] == ':' && '/' !in s[i..]
  {
    hide EcrTag, EndsWith, Lead, IsLiveReference;
    EcrTagNotEmpty(tag);
    LiveIffReference(s, repository, tag);
    var prefix :| Reference(s, prefix, repository, tag);
    ReferenceEndsInColon(s, prefix, repository, tag);
    SlashInLead(prefix, repository);
    NoSlashInTag(tag);
    assert s[|prefix| - 1..] == [':'] + tag;
  }

  lemma SlashInLead(prefix: string, repository: string)
    requires EndsWith(prefix, Lead(repository))
    ensures '/' in prefix
  {
    assert Lead(repository)[0] == '/';
  }

  lemma NoSlashInTag(tag: string)
    requires EcrTag(tag)
    ensures '/' !in tag
  {
  }

  lemma NoSlashNotLive(s: string, repository: string, tag: string)
    requires EcrTag(tag) && '/' !in s
    ensures !IsLiveReference(s, repository, tag)
  {
    hide EcrTag, IsLiveReference;
    if IsLiveReference(s, repository, tag) { LiveShape(s, repository, tag); }
  }

  const PATH_END := "/Resource"

  lemma PathNotLive(p: string, r: Role, repository: string, tag: string)
    requires EcrTag(tag) && IsTask(r)
    ensures !IsLiveReference(WrittenPath(p, r), repository, tag)
  {
    hide EcrTag, IsLiveReference, WrittenPath;
    var s := WrittenPath(p, r);
    PathEnds(p, r);
    if IsLiveReference(s, repository, tag) {
      LiveShape(s, repository, tag);
      var i :| 0 <= i < |s| && s[i] == ':' && '/' !in s[i..];
      EndHasNoColon(s, i);
    }
  }

  lemma EndHasNoColon(s: string, i: nat)
    requires |s| >= 9 && s[|s| - 9..] == PATH_END && i < |s| && '/' !in s[i..]
    ensures s[i] != ':'
  {
    var k := |s| - 9;
    assert s[k..][0] == PATH_END[0] == '/';
    forall j | i <= j < |s| ensures s[j] != '/' { assert s[i..][j - i] in s[i..]; }
    assert s[i] == s[k..][i - k] && ':' !in PATH_END;
  }

  lemma PathEnds(p: string, r: Role)
    requires IsTask(r)
    ensures |WrittenPath(p, r)| >= 9 && WrittenPath(p, r)[|WrittenPath(p, r)| - 9..] == PATH_END
  {
    var front := p + "-app-v2/" + p;
    assert "-web-td/Resource" == "-web-td" + PATH_END && "-worker-td/Resource" == "-worker-td" + PATH_END;
    assert r == WebTask ==> WrittenPath(p, r) == front + "-web-td" + PATH_END;
    assert r == WorkerTask ==> WrittenPath(p, r) == front + "-worker-td" + PATH_END;
  }

  // ---------------------------------------------------------------- counting in a task definition

  ghost function LiveIn(j: Json, repository: string, tag: string): nat { CountLive(StringsOf(j), repository, tag) }

  ghost function LiveText(s: string, repository: string, tag: string): nat {
    if IsLiveReference(s, repository, tag) then 1 else 0
  }

  lemma LiveString(s: string, repository: string, tag: string)
    ensures LiveIn(Str(s), repository, tag) == LiveText(s, repository, tag)
  {
    hide IsLiveReference, CountLive;
    CountLiveOne(s, repository, tag);
  }

  lemma LiveScalar(j: Json, repository: string, tag: string)
    requires Scalar(j) && !j.Str?
    ensures LiveIn(j, repository, tag) == 0
  {
  }

  /** The count over the values of these keys, one after the other. */
  ghost function LiveFields(j: Json, keys: seq<string>, repository: string, tag: string): nat
    requires j.Obj? && forall k <- keys :: k in j.m
  {
    if keys == [] then 0 else LiveIn(j.m[keys[0]], repository, tag) + LiveFields(j, keys[1..], repository, tag)
  }

  lemma {:induction false} LiveFieldStrings(j: Json, keys: seq<string>, repository: string, tag: string)
    requires j.Obj? && forall k <- keys :: k in j.m
    ensures CountLive(FieldStrings(j, keys), repository, tag) == LiveFields(j, keys, repository, tag)
  {
    hide IsLiveReference, StringsOf;
    if keys != [] {
      LiveFieldStrings(j, keys[1..], repository, tag);
      CountLiveConcat(StringsOf(j.m[keys[0]]), FieldStrings(j, keys[1..]), repository, tag);
    }
  }

  lemma LiveObj(j: Json, repository: string, tag: string)
    requires j.Obj? && forall k <- j.order :: k in j.m
    ensures LiveIn(j, repository, tag) == LiveFields(j, j.order, repository, tag)
  {
    hide CountLive, FieldStrings;
    LiveFieldStrings(j, j.order, repository, tag);
  }

  lemma LiveOne(j: Json, a: string, repository: string, tag: string)
    requires j.Obj? && j.order == [a] && a in j.m
    ensures LiveIn(j, repository, tag) == LiveIn(j.m[a], repository, tag)
  {
    hide LiveIn;
    LiveObj(j, repository, tag);
    assert [a][1..] == [] && LiveFields(j, [], repository, tag) == 0;
  }

  lemma LiveTwo(j: Json, a: string, b: string, repository: string, tag: string)
    requires j.Obj? && j.order == [a, b] && a in j.m && b in j.m
    ensures LiveIn(j, repository, tag) == LiveIn(j.m[a], repository, tag) + LiveIn(j.m[b], repository, tag)
  {
    hide LiveIn;
    LiveObj(j, repository, tag);
    assert [a, b][1..] == [b] && [b][1..] == [] && LiveFields(j, [], repository, tag) == 0;
    assert LiveFields(j, [b], repository, tag) == LiveIn(j.m[b], repository, tag);
  }

  lemma LiveThree(j: Json, a: string, b: string, c: string, repository: string, tag: string)
    requires j.Obj? && j.order == [a, b, c] && a in j.m && b in j.m && c in j.m
    ensures LiveIn(j, repository, tag) ==
            LiveIn(j.m[a], repository, tag) + LiveIn(j.m[b], repository, tag) + LiveIn(j.m[c], repository, tag)
  {
    hide LiveIn;
    LiveObj(j, repository, tag);
    assert [a, b, c][1..] == [b, c] && [b, c][1..] == [c] && [c][1..] == [] && LiveFields(j, [], repository, tag) == 0;
    assert LiveFields(j, [c], repository, tag) == LiveIn(j.m[c], repository, tag);
    assert LiveFields(j, [b, c], repository, tag) == LiveIn(j.m[b], repository, tag) + LiveIn(j.m[c], repository, tag);
  }

  lemma LiveItems(j: Json, i: nat, repository: string, tag: string)
    requires j.Arr? && i < |j.items|
    ensures CountLive(ItemStrings(j, i), repository, tag) ==
            LiveIn(j.items[i], repository, tag) + CountLive(ItemStrings(j, i + 1), repository, tag)
  {
    hide IsLiveReference, StringsOf, CountLive;
    CountLiveConcat(StringsOf(j.items[i]), ItemStrings(j, i + 1), repository, tag);
  }

  lemma LiveSingleton(j: Json, repository: string, tag: string)
    requires j.Arr? && |j.items| == 1
    ensures LiveIn(j, repository, tag) == LiveIn(j.items[0], repository, tag)
  {
    hide IsLiveReference, CountLive;
    LiveItems(j, 0, repository, tag);
    assert ItemStrings(j, 1) == [] && CountLive([], repository, tag) == 0 by { NoStrings(repository, tag); }
  }

  lemma NoStrings(repository: string, tag: string)
    ensures CountLive([], repository, tag) == 0
  {
  }

  lemma RefNotLive(name: string, repository: string, tag: string)
    requires EcrTag(tag) && '/' !in name
    ensures LiveIn(Ref(name), repository, tag) == 0
  {
    hide LiveIn, IsLiveReference, EcrTag;
    LiveOne(Ref(name), "Ref", repository, tag);
    LiveString(name, repository, tag);
    NoSlashNotLive(name, repository, tag);
  }

  lemma LiveImageNode(text: string, repository: string, tag: string)
    requires EcrTag(tag)
    ensures LiveIn(ImageNode(text), repository, tag) == LiveText(text, repository, tag)
  {
    hide IsLiveReference, EcrTag, CountLive, Ref, StringsOf;
    var node := ImageNode(text);
    var join := node.m["Fn::Join"];
    var parts := join.items[1];
    LiveOne(node, "Fn::Join", repository, tag);
    StringsOfArr(join);
    StringsOfArr(parts);
    NoStrings(repository, tag);
    LiveItems(join, 0, repository, tag);
    LiveItems(join, 1, repository, tag);
    assert ItemStrings(join, 2) == [] && ItemStrings(parts, 4) == [];
    LiveItems(parts, 0, repository, tag);
    LiveItems(parts, 1, repository, tag);
    LiveItems(parts, 2, repository, tag);
    LiveItems(parts, 3, repository, tag);
    PlainText("", repository, tag);
    PlainText(".dkr.ecr.", repository, tag);
    RefNotLive("AWS::AccountId", repository, tag);
    RefNotLive("AWS::Region", repository, tag);
    LiveString(text, repository, tag);
  }

  lemma StringsOfArr(j: Json)
    requires j.Arr?
    ensures StringsOf(j) == ItemStrings(j, 0)
  {
  }

  lemma PlainText(s: string, repository: string, tag: string)
    requires EcrTag(tag) && '/' !in s
    ensures LiveIn(Str(s), repository, tag) == 0
  {
    hide LiveIn, IsLiveReference, EcrTag;
    LiveString(s, repository, tag);
    NoSlashNotLive(s, repository, tag);
  }

  lemma LiveEnvironment(value: string, repository: string, tag: string)
    requires EcrTag(tag)
    ensures LiveIn(Environment(value), repository, tag) == LiveText(value, repository, tag)
  {
    hide LiveIn, IsLiveReference, EcrTag;
    var j := Environment(value);
    LiveSingleton(j, repository, tag);
    LiveTwo(j.items[0], "Name", "Value", repository, tag);
    PlainText("DJANGO_DEBUG", repository, tag);
    LiveString(value, repository, tag);
  }

  lemma LiveContainer(texts: Texts, repository: string, tag: string)
    requires EcrTag(tag)
    ensures LiveIn(Container(texts), repository, tag) ==
            LiveText(texts.image, repository, tag) + LiveText(texts.value, repository, tag)
  {
    hide LiveIn, IsLiveReference, EcrTag, ImageNode, Environment;
    LiveThree(Container(texts), "Essential", "Image", "Environment", repository, tag);
    LiveScalar(Bool(true), repository, tag);
    LiveImageNode(texts.image, repository, tag);
    LiveEnvironment(texts.value, repository, tag);
  }

  lemma LiveProperties(texts: Texts, repository: string, tag: string)
    requires EcrTag(tag)
    ensures LiveIn(TaskProperties(texts), repository, tag) ==
            LiveText(texts.image, repository, tag) + LiveText(texts.value, repository, tag)
  {
    hide LiveIn, IsLiveReference, EcrTag, Container;
    var j := TaskProperties(texts);
    LiveThree(j, "Cpu", "Memory", "ContainerDefinitions", repository, tag);
    PlainText("256", repository, tag);
    PlainText("512", repository, tag);
    LiveSingleton(j.m["ContainerDefinitions"], repository, tag);
    LiveContainer(texts, repository, tag);
  }

  /** A task definition holds as many live references as its two texts. */
  lemma LiveTask(stack: string, r: Role, texts: Texts, repository: string, tag: string)
    requires LegalStack(stack) && IsTask(r) && EcrTag(tag)
    ensures LiveIn(Task(stack, r, texts), repository, tag) ==
            LiveText(texts.image, repository, tag) + LiveText(texts.value, repository, tag)
  {
    hide LiveIn, IsLiveReference, EcrTag, TaskProperties, LegalStack, WrittenPath;
    var j := Task(stack, r, texts);
    LiveThree(j, "Type", "Metadata", "Properties", repository, tag);
    assert '/' !in "AWS::ECS::TaskDefinition";
    PlainText("AWS::ECS::TaskDefinition", repository, tag);
    LiveOne(j.m["Metadata"], "aws:cdk:path", repository, tag);
    LiveString(WrittenPath(PrefixOf(stack), r), repository, tag);
    PathNotLive(PrefixOf(stack), r, repository, tag);
    LiveProperties(texts, repository, tag);
  }

  lemma ImageIsLive(repository: string, oldTag: string, tag: string)
    requires EcrTag(tag) && EcrTag(oldTag)
    ensures IsLiveReference(Image(repository, tag), repository, tag)
    ensures oldTag != tag ==> !IsLiveReference(Image(repository, oldTag), repository, tag)
  {
    hide IsLiveReference, Image, EcrTag, IsExpectedImageChange;
    ImageMoves(repository, oldTag, tag);
    ExpectedChangeMakesLive(Str(Image(repository, oldTag)), Str(Image(repository, tag)), repository, tag);
    if oldTag != tag { DifferentTags(repository, oldTag, tag); }
  }

  // ---------------------------------------------------------------- the disguised plan

  /** The value of the environment variable of both tasks. */
  const QUIET := "0"

  /** Accepted, and yet the web task gains no live reference. With a web task that runs the
      requested image already, reviewing the result again is a no-op, although a live reference
      was there before the deploy. */
  lemma ImpostorAddsNoLive(py: Python, uri: string, repository: string, stack: string, oldTag: string, emptyCs: Json)
    requires LegalStack(stack) && EcrTag(oldTag) && EmptyChangeSet(emptyCs)
    requires ParseImageUri(py, uri, repository).Some?
    requires TagOf(py, uri, repository) != "dev" && TagOf(py, uri, repository) != oldTag
    ensures Injective(Roles4("W")) && Roles4("W").Values == AllRoles
    ensures var tag := TagOf(py, uri, repository);
            var a, b := Image(repository, oldTag), Image(repository, tag);
            var current := Disguised(stack, Texts(b, QUIET), a, QUIET);
            var proposed := Disguised(stack, Texts(b, QUIET), b, QUIET);
            && Accepted(py, ImageUpdate(Roles4("W"), "Static"), current, proposed, uri, repository, stack)
            && Identified(current, stack) && Identified(proposed, stack)
            && RoleLive(current, stack, WebTask, repository, tag) == 1
            && RoleLive(proposed, stack, WebTask, repository, tag) == 1
            && RoleLive(current, stack, WorkerTask, repository, tag) == 0
            && RoleLive(proposed, stack, WorkerTask, repository, tag) == 1
            && ValidateApp(py, emptyCs, Some(proposed), None, uri, repository, stack) == Verdict.Noop
  {
    hide ParseImageUri, EcrTag, LegalStack, Template, RolesOf, LogicalByRole, ImageUpdate, Accepted, Image, Roles4,
         Task, IsLiveReference, ValidateApp, EmptyChangeSet, OnlyTwoImageTagsChange, ConfusablePlacesUnchanged,
         KeysUnambiguous, CountLive, StringsOf, ResourceOf, Disguised;
    var tag := TagOf(py, uri, repository);
    var a, b := Image(repository, oldTag), Image(repository, tag);
    var web := Texts(b, QUIET);
    var current, proposed := Disguised(stack, web, a, QUIET), Disguised(stack, web, b, QUIET);
    TagIsGrammatical(py, uri, repository);
    ImpostorIsAccepted(py, uri, repository, stack, web, QUIET, oldTag);
    ResourcesOfDisguised(stack, web, a, QUIET);
    ResourcesOfDisguised(stack, web, b, QUIET);
    ImageIsLive(repository, oldTag, tag);
    NoSlashNotLive(QUIET, repository, tag);
    LiveTask(stack, WebTask, web, repository, tag);
    LiveTask(stack, WorkerTask, Texts(a, QUIET), repository, tag);
    LiveTask(stack, WorkerTask, Texts(b, QUIET), repository, tag);
    ReviewAgainIff(py, ImageUpdate(Roles4("W"), "Static"), current, proposed, uri, repository, stack, emptyCs, None);
  }
}
