/** Concrete plans. An ordinary one moves both image tags and is accepted, unless a task's
    logical id is dotted. One that moves image-like text elsewhere in the tasks is accepted as
    well. And one is accepted although the web task does not move: a top-level key that reads
    like a path into the web task definition changes instead. */
module Plans {
  import opened Text
  import opened Json
  import opened TreeDiff
  import opened DiffTheorems
  import opened ImageTags
  import opened Roles
  import opened Attribution
  import opened ChangeSetTheorems
  import opened Guard
  import opened GuardTheorems
  import opened SoundnessExact
  import opened DeployExact
  import opened Scenarios
  import opened SampleTemplates

  const IMPOSTOR := "Resources.W"
  const PLAIN := "Description"

  function Image(repository: string, tag: string): string { ".amazonaws.com" + Lead(repository) + tag }

  lemma ImageMoves(repository: string, oldTag: string, tag: string)
    requires EcrTag(oldTag) && EcrTag(tag)
    ensures IsExpectedImageChange(Str(Image(repository, oldTag)), Str(Image(repository, tag)), repository, tag)
  {
    hide EcrTag, IsExpectedImageChange;
    EcrTagNotEmpty(tag);
    var prefix := ".amazonaws.com" + Lead(repository);
    EndsWithConcat(".amazonaws.com", Lead(repository));
    assert TagChange(Str(Image(repository, oldTag)), Str(Image(repository, tag)), prefix, repository, oldTag, tag);
    ImageChangeIff(Str(Image(repository, oldTag)), Str(Image(repository, tag)), repository, tag);
  }

  lemma DifferentTags(repository: string, oldTag: string, tag: string)
    requires oldTag != tag
    ensures Image(repository, oldTag) != Image(repository, tag)
  {
    var prefix := ".amazonaws.com" + Lead(repository);
    assert Image(repository, oldTag)[|prefix|..] == oldTag && Image(repository, tag)[|prefix|..] == tag;
  }

  // ---------------------------------------------------------------- plans that move two strings

  lemma RoleOfId(id: string)
    requires FreeId(id)
    ensures RoleWithId(Ids4(id), id) == Some(WebTask) && RoleWithId(Ids4(id), "K") == Some(WorkerTask)
  {
  }

  /** This place lies inside the resource. */
  ghost predicate Inside(p: Path, id: string) { |p| > 2 && p[0] == Key("Resources") && p[1] == Key(id) }

  lemma PlacesInside(id: string)
    ensures Inside(ImageOf(id), id) && Inside(ValueOf(id), id)
  {
  }

  /** Moving one image text inside each task is the plan the guard exists for. */
  lemma TwoMovesArePlan(current: Json, proposed: Json, stack: string, id: string, p: Path, q: Path,
                        repository: string, oldTag: string, tag: string)
    requires LegalStack(stack) && FreeId(id) && EcrTag(oldTag) && EcrTag(tag)
    requires RolesOf(current, stack) == Some(Roles4(id)) == RolesOf(proposed, stack)
    requires Inside(p, id) && Inside(q, "K")
    requires forall e :: e in DiffsAt(current, proposed, []) <==>
               || e == Move(p, Image(repository, oldTag), Image(repository, tag))
               || e == Move(q, Image(repository, oldTag), Image(repository, tag))
    ensures OnlyTwoImageTagsChange(current, proposed, id, "K", repository, tag)
  {
    hide EcrTag, LegalStack, RolesOf, LogicalByRole, DiffsAt, Image, IsExpectedImageChange, RoleWithId,
         OnlyTwoImageTagsChange;
    var a, b := Image(repository, oldTag), Image(repository, tag);
    var web, worker := Move(p, a, b), Move(q, a, b);
    IdsOfRoles(id);
    assert p != q by { assert p[1] != q[1]; }
    DiffPathsDistinct(current, proposed, []);
    TwoByMembership(DiffsAt(current, proposed, []), web, worker);
    ImageMoves(repository, oldTag, tag);
    RoleOfId(id);
    TwoSwaps(current, proposed, stack, web, worker, repository, tag);
  }

  /** With the image-update change set such a plan is accepted exactly when the id has no dot. */
  lemma TwoMovesAcceptedIff(py: Python, uri: string, repository: string, stack: string, id: string, current: Json,
                            proposed: Json)
    requires FreeId(id)
    requires ParseImageUri(py, uri, repository).Some? && TagOf(py, uri, repository) != "dev"
    requires RolesOf(current, stack) == Some(Roles4(id)) == RolesOf(proposed, stack)
    requires OnlyTwoImageTagsChange(current, proposed, id, "K", repository, TagOf(py, uri, repository))
    ensures Injective(Roles4(id)) && Roles4(id).Values == AllRoles
    ensures var cs := ImageUpdate(Roles4(id), "Static");
            && ImageUpdatePlan(py, cs, current, proposed, uri, repository, stack)
            && (Accepted(py, cs, current, proposed, uri, repository, stack) <==> '.' !in id)
  {
    hide ParseImageUri, RolesOf, LogicalByRole, ImageUpdate, Accepted, OnlyTwoImageTagsChange, ChangeSetOk, Roles4,
         FreeId, TagOf;
    IdsOfRoles(id);
    ImageUpdateOk(py, Roles4(id), "Static", repository, TagOf(py, uri, repository));
    PlanAcceptedIff(py, ImageUpdate(Roles4(id), "Static"), current, proposed, uri, repository, stack);
    assert RoleIds(current, stack)[WebTask] == id && '.' !in RoleIds(current, stack)[WorkerTask];
  }

  // ---------------------------------------------------------------- the ordinary plan

  /** For every web task id, moving both container images with the image-update change set is a
      plan that changes the two image tags only, and it is accepted exactly when the id has
      no dot. */
  lemma OrdinaryIsAcceptedIff(py: Python, uri: string, repository: string, stack: string, id: string, note: string,
                              value: string, oldTag: string)
    requires LegalStack(stack) && FreeId(id) && EcrTag(oldTag)
    requires ParseImageUri(py, uri, repository).Some?
    requires TagOf(py, uri, repository) != "dev" && TagOf(py, uri, repository) != oldTag
    ensures Injective(Roles4(id)) && Roles4(id).Values == AllRoles
    ensures var before := Texts(Image(repository, oldTag), value);
            var after := Texts(Image(repository, TagOf(py, uri, repository)), value);
            var current := Template(stack, id, PLAIN, note, before, before);
            var proposed := Template(stack, id, PLAIN, note, after, after);
            var cs := ImageUpdate(Roles4(id), "Static");
            && ImageUpdatePlan(py, cs, current, proposed, uri, repository, stack)
            && (Accepted(py, cs, current, proposed, uri, repository, stack) <==> '.' !in id)
  {
    hide ParseImageUri, EcrTag, LegalStack, Template, RolesOf, ImageUpdate, Accepted, OnlyTwoImageTagsChange, Image,
         Roles4, FreeId, DiffsAt, ImageUpdatePlan, ImageOf, ValueOf;
    var tag := TagOf(py, uri, repository);
    var a, b := Image(repository, oldTag), Image(repository, tag);
    var before, after := Texts(a, value), Texts(b, value);
    var current := Template(stack, id, PLAIN, note, before, before);
    var proposed := Template(stack, id, PLAIN, note, after, after);
    assert |PLAIN| != |"Resources"|;
    TagIsGrammatical(py, uri, repository);
    TemplateRoles(stack, id, PLAIN, note, before, before);
    TemplateRoles(stack, id, PLAIN, note, after, after);
    DifferentTags(repository, oldTag, tag);
    forall e
      ensures e in DiffsAt(current, proposed, []) <==> e == Move(ImageOf(id), a, b) || e == Move(ImageOf("K"), a, b)
    {
      TemplateEntries(stack, id, PLAIN, note, note, before, after, before, after, e);
    }
    PlacesInside(id);
    PlacesInside("K");
    TwoMovesArePlan(current, proposed, stack, id, ImageOf(id), ImageOf("K"), repository, oldTag, tag);
    TwoMovesAcceptedIff(py, uri, repository, stack, id, current, proposed);
  }

  /** The guard accepts an ordinary image update of unambiguous templates. */
  lemma OrdinaryIsAccepted(py: Python, uri: string, repository: string, stack: string, note: string, value: string,
                           oldTag: string)
    requires LegalStack(stack) && EcrTag(oldTag)
    requires ParseImageUri(py, uri, repository).Some?
    requires TagOf(py, uri, repository) != "dev" && TagOf(py, uri, repository) != oldTag
    ensures Injective(Roles4("W")) && Roles4("W").Values == AllRoles
    ensures var before := Texts(Image(repository, oldTag), value);
            var after := Texts(Image(repository, TagOf(py, uri, repository)), value);
            var current := Template(stack, "W", PLAIN, note, before, before);
            var proposed := Template(stack, "W", PLAIN, note, after, after);
            && KeysUnambiguous(current, stack)
            && Accepted(py, ImageUpdate(Roles4("W"), "Static"), current, proposed, uri, repository, stack)
  {
    hide ParseImageUri, EcrTag, LegalStack, Template, ImageUpdatePlan, ImageUpdate, Accepted, KeysUnambiguous, Image,
         Roles4;
    assert '.' !in "W" && "W"[0] == 'W';
    OrdinaryIsAcceptedIff(py, uri, repository, stack, "W", note, value, oldTag);
    var before := Texts(Image(repository, oldTag), value);
    PlainKeysUnambiguous(stack, note, before, before);
  }

  /** The guard refuses the same image update when the web task's logical id is `W.1`. */
  lemma DottedIsRefused(py: Python, uri: string, repository: string, stack: string, note: string, value: string,
                        oldTag: string)
    requires LegalStack(stack) && EcrTag(oldTag)
    requires ParseImageUri(py, uri, repository).Some?
    requires TagOf(py, uri, repository) != "dev" && TagOf(py, uri, repository) != oldTag
    ensures Injective(Roles4("W.1")) && Roles4("W.1").Values == AllRoles
    ensures var before := Texts(Image(repository, oldTag), value);
            var after := Texts(Image(repository, TagOf(py, uri, repository)), value);
            var current := Template(stack, "W.1", PLAIN, note, before, before);
            var proposed := Template(stack, "W.1", PLAIN, note, after, after);
            var cs := ImageUpdate(Roles4("W.1"), "Static");
            && ImageUpdatePlan(py, cs, current, proposed, uri, repository, stack)
            && !Accepted(py, cs, current, proposed, uri, repository, stack)
  {
    hide ParseImageUri, EcrTag, LegalStack, Template, ImageUpdatePlan, ImageUpdate, Accepted, Image, Roles4;
    assert "W.1"[1] == '.' && |"W.1"| == 3;
    OrdinaryIsAcceptedIff(py, uri, repository, stack, "W.1", note, value, oldTag);
  }

  lemma PlainKeysUnambiguous(stack: string, note: string, web: Texts, worker: Texts)
    requires LegalStack(stack)
    ensures KeysUnambiguous(Template(stack, "W", PLAIN, note, web, worker), stack)
  {
    hide LegalStack, Resource, Task, ServiceProperties, RolesOf, LogicalByRole, ReadsLikeRole, Head;
    var t := Template(stack, "W", PLAIN, note, web, worker);
    assert |PLAIN| != |"Resources"| && PLAIN[0] != RESOURCES[0];
    assert Get(t, "Resources") == Resources(stack, "W", web, worker);
    assert t.m.Keys == {"Resources", PLAIN};
    assert Resources(stack, "W", web, worker).m.Keys == {"W", "K", "S", "T", "R"};
    assert '.' !in "W" && '.' !in "K" && '.' !in "S" && '.' !in "T" && '.' !in "R";
  }

  // ---------------------------------------------------------------- image text elsewhere in the tasks

  /** The guard does not ask where inside a task the text moves: here both container images stay
      and the value of an environment variable moves in each task. */
  lemma ElsewhereIsAccepted(py: Python, uri: string, repository: string, stack: string, note: string, web: string,
                            worker: string, oldTag: string)
    requires LegalStack(stack) && EcrTag(oldTag)
    requires ParseImageUri(py, uri, repository).Some?
    requires TagOf(py, uri, repository) != "dev" && TagOf(py, uri, repository) != oldTag
    ensures Injective(Roles4("W")) && Roles4("W").Values == AllRoles
    ensures var a, b := Image(repository, oldTag), Image(repository, TagOf(py, uri, repository));
            var current := Template(stack, "W", PLAIN, note, Texts(web, a), Texts(worker, a));
            var proposed := Template(stack, "W", PLAIN, note, Texts(web, b), Texts(worker, b));
            && Accepted(py, ImageUpdate(Roles4("W"), "Static"), current, proposed, uri, repository, stack)
            && KeysUnambiguous(current, stack)
            && forall e <- DiffsAt(current, proposed, []) :: e.path == ValueOf("W") || e.path == ValueOf("K")
  {
    hide ParseImageUri, EcrTag, LegalStack, Template, RolesOf, ImageUpdate, Accepted, OnlyTwoImageTagsChange, Image,
         Roles4, DiffsAt, ImageUpdatePlan, ImageOf, ValueOf, KeysUnambiguous;
    var tag := TagOf(py, uri, repository);
    var a, b := Image(repository, oldTag), Image(repository, tag);
    var current := Template(stack, "W", PLAIN, note, Texts(web, a), Texts(worker, a));
    var proposed := Template(stack, "W", PLAIN, note, Texts(web, b), Texts(worker, b));
    assert |PLAIN| != |"Resources"| && "W"[0] == 'W';
    TagIsGrammatical(py, uri, repository);
    TemplateRoles(stack, "W", PLAIN, note, Texts(web, a), Texts(worker, a));
    TemplateRoles(stack, "W", PLAIN, note, Texts(web, b), Texts(worker, b));
    DifferentTags(repository, oldTag, tag);
    forall e
      ensures e in DiffsAt(current, proposed, []) <==> e == Move(ValueOf("W"), a, b) || e == Move(ValueOf("K"), a, b)
    {
      TemplateEntries(stack, "W", PLAIN, note, note, Texts(web, a), Texts(web, b), Texts(worker, a), Texts(worker, b),
                      e);
    }
    PlacesInside("W");
    PlacesInside("K");
    TwoMovesArePlan(current, proposed, stack, "W", ValueOf("W"), ValueOf("K"), repository, oldTag, tag);
    TwoMovesAcceptedIff(py, uri, repository, stack, "W", current, proposed);
    PlainKeysUnambiguous(stack, note, Texts(web, a), Texts(worker, a));
  }

  // ---------------------------------------------------------------- the guard is deceived

  lemma PlainHead(c: char)
    requires c != '.'
    ensures Head([c], '.') == [c]
  {
    HeadIsPrefixWithoutSeparator([c], '.');
  }

  /** The impostor's difference is booked on the web task, the worker's on the worker task. */
  lemma BookedRoles()
    ensures DifferenceRole(OrRoot(Render([Key(IMPOSTOR)])), Ids4("W")) == Some(WebTask)
    ensures DifferenceRole(OrRoot(Render(ImageOf("K"))), Ids4("W")) == Some(WorkerTask)
  {
    hide Render, RoleWithId, Head;
    RenderFront(IMPOSTOR, []);
    EmptyTail();
    assert [Key(IMPOSTOR)] + [] == [Key(IMPOSTOR)] && IMPOSTOR + "" == IMPOSTOR;
    assert IMPOSTOR == RESOURCES + "W";
    assert RESOURCES <= IMPOSTOR && IMPOSTOR[|RESOURCES|..] == "W";
    assert "W" == ['W'] && "K" == ['K'];
    PlainHead('W');
    PlainHead('K');
    assert "W"[0] == 'W';
    RoleOfId("W");
    assert ImageOf("K") == [Key("Resources"), Key("K")] + IMAGE_PLACE;
    ResourcesPath("K", IMAGE_PLACE);
  }

  /** The impostor's move and the worker's pass the difference check. */
  lemma ImpostorPasses(x: Json, y: Json, repository: string, oldTag: string, tag: string)
    requires EcrTag(oldTag) && EcrTag(tag)
    requires forall e :: e in DiffsAt(x, y, []) <==>
               || e == Move([Key(IMPOSTOR)], Image(repository, oldTag), Image(repository, tag))
               || e == Move(ImageOf("K"), Image(repository, oldTag), Image(repository, tag))
    ensures DifferencesOk(Differences(x, y, ""), Ids4("W"), repository, tag)
  {
    hide DiffsAt, Differences, DifferencesOk, DifferenceRole, EcrTag, Render, IsExpectedImageChange, Image;
    var a, b := Image(repository, oldTag), Image(repository, tag);
    assert |ImageOf("K")| > 1;
    DiffPathsDistinct(x, y, []);
    TwoByMembership(DiffsAt(x, y, []), Move([Key(IMPOSTOR)], a, b), Move(ImageOf("K"), a, b));
    RenderedDiff(x, y, []);
    RenderNil();
    BookedRoles();
    ImageMoves(repository, oldTag, tag);
    OnePerTask(Differences(x, y, ""), Ids4("W"), repository, tag);
  }

  /** With the image-update change set, the difference check decides about these templates. */
  lemma AcceptedOnDifferences(py: Python, uri: string, repository: string, stack: string, current: Json, proposed: Json)
    requires RolesOf(current, stack) == Some(Roles4("W")) == RolesOf(proposed, stack)
    requires Injective(Roles4("W")) && Roles4("W").Values == AllRoles && LogicalByRole(Roles4("W")) == Ids4("W")
    requires ParseImageUri(py, uri, repository).Some? && TagOf(py, uri, repository) != "dev"
    requires DifferencesOk(Differences(current, proposed, ""), Ids4("W"), repository, TagOf(py, uri, repository))
    ensures Accepted(py, ImageUpdate(Roles4("W"), "Static"), current, proposed, uri, repository, stack)
  {
    hide ParseImageUri, RolesOf, LogicalByRole, DifferencesOk, Differences, ImageUpdate, ChangesOk, Deployable,
         ChangeSet.Noop, Truthy, Roles4;
    ImageUpdateOk(py, Roles4("W"), "Static", repository, TagOf(py, uri, repository));
  }

  /** A template whose impostor key holds the worker's image. */
  function Disguised(stack: string, web: Texts, image: string, value: string): Json
    requires LegalStack(stack)
  {
    Template(stack, "W", IMPOSTOR, image, web, Texts(image, value))
  }

  lemma ResourcesOfDisguised(stack: string, web: Texts, image: string, value: string)
    requires LegalStack(stack)
    ensures ResourceOf(Disguised(stack, web, image, value), "W") == Task(stack, WebTask, web)
    ensures ResourceOf(Disguised(stack, web, image, value), "K") == Task(stack, WorkerTask, Texts(image, value))
  {
    hide LegalStack, Task, Resource, ServiceProperties;
    assert |IMPOSTOR| != |"Resources"| && "W"[0] == 'W';
  }

  lemma WebTaskHasNoSwap(stack: string, web: Texts, a: string, b: string, value: string, repository: string,
                         tag: string)
    requires LegalStack(stack)
    ensures !OnlyTwoImageTagsChange(Disguised(stack, web, a, value), Disguised(stack, web, b, value), "W", "K",
                                    repository, tag)
  {
    hide DiffsAt, LegalStack, Template, SameTree, Patch, TagChange, ImageOf, ValueOf;
    var x, y := Disguised(stack, web, a, value), Disguised(stack, web, b, value);
    assert |IMPOSTOR| != |"Resources"| && "W"[0] == 'W';
    PlacesInside("K");
    if OnlyTwoImageTagsChange(x, y, "W", "K", repository, tag) {
      var e: Entry :| ImageSwap(x, y, "W", e, repository, tag) && e in DiffsAt(x, y, []);
      TemplateEntries(stack, "W", IMPOSTOR, a, b, web, web, Texts(a, value), Texts(b, value), e);
    }
  }

  /** The guard accepts this deployment with the ordinary image-update change set, and yet
      the web task definition is unchanged and another string moves. */
  lemma ImpostorIsAccepted(py: Python, uri: string, repository: string, stack: string, web: Texts, value: string,
                           oldTag: string)
    requires LegalStack(stack) && EcrTag(oldTag)
    requires ParseImageUri(py, uri, repository).Some?
    requires TagOf(py, uri, repository) != "dev" && TagOf(py, uri, repository) != oldTag
    ensures Injective(Roles4("W")) && Roles4("W").Values == AllRoles
    ensures var current := Disguised(stack, web, Image(repository, oldTag), value);
            var proposed := Disguised(stack, web, Image(repository, TagOf(py, uri, repository)), value);
            && Accepted(py, ImageUpdate(Roles4("W"), "Static"), current, proposed, uri, repository, stack)
            && RolesOf(current, stack) == Some(Roles4("W")) == RolesOf(proposed, stack)
            && LogicalByRole(Roles4("W")) == Ids4("W")
            && ResourceOf(current, "W") == ResourceOf(proposed, "W")
            && !OnlyTwoImageTagsChange(current, proposed, "W", "K", repository, TagOf(py, uri, repository))
            && !ConfusablePlacesUnchanged(current, proposed)
            && !KeysUnambiguous(current, stack)
  {
    hide ParseImageUri, EcrTag, LegalStack, Template, RolesOf, LogicalByRole, DifferencesOk, Differences, ImageUpdate,
         Accepted, OnlyTwoImageTagsChange, KeysUnambiguous, DiffsAt, Image, Roles4, ConfusablePlacesUnchanged, ImageOf,
         ValueOf;
    var tag := TagOf(py, uri, repository);
    var a, b := Image(repository, oldTag), Image(repository, tag);
    var current, proposed := Disguised(stack, web, a, value), Disguised(stack, web, b, value);
    TagIsGrammatical(py, uri, repository);
    assert |IMPOSTOR| != |"Resources"| && "W"[0] == 'W';
    IdsOfRoles("W");
    TemplateRoles(stack, "W", IMPOSTOR, a, web, Texts(a, value));
    TemplateRoles(stack, "W", IMPOSTOR, b, web, Texts(b, value));
    DifferentTags(repository, oldTag, tag);
    forall e
      ensures e in DiffsAt(current, proposed, []) <==> e == Move([Key(IMPOSTOR)], a, b) || e == Move(ImageOf("K"), a, b)
    {
      TemplateEntries(stack, "W", IMPOSTOR, a, b, web, web, Texts(a, value), Texts(b, value), e);
    }
    ImpostorPasses(current, proposed, repository, oldTag, tag);
    AcceptedOnDifferences(py, uri, repository, stack, current, proposed);
    ResourcesOfDisguised(stack, web, a, value);
    ResourcesOfDisguised(stack, web, b, value);
    WebTaskHasNoSwap(stack, web, a, b, value, repository, tag);
    DeploySoundIff(py, ImageUpdate(Roles4("W"), "Static"), current, proposed, uri, repository, stack);
    if KeysUnambiguous(current, stack) {
      DeploySound(py, ImageUpdate(Roles4("W"), "Static"), current, proposed, uri, repository, stack);
    }
  }
}
