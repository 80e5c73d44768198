/** scripts/edge_image_admission.py, sanitize_backup_tree: rewrites the Compose files of a
    backup tree and moves the originals to quarantine, all or nothing. */
module BackupTree {
  import opened Common
  import C = ComposeImage
  import Sorting

  datatype Content = Text(text: string) | Undecodable

  datatype Owner = Owner(uid: nat, gid: nat)

  /** A file with its full mode bits, the special ones included. */
  datatype File = File(content: Content, mode: nat, owner: Owner)

  type Files = map<string, File>

  const SERVICE := "bahia"

  // ----- planning

  /** One file to rewrite: where it lies, where the original goes, what replaces it, and
      the permission bits and owner it keeps. */
  datatype Item = Item(path: string, raw: string, temporary: string, original: string, rendered: string,
                       mode: nat, owner: Owner)

  datatype Refusal = SeveralImages(path: string, found: nat) | RawExists(raw: string) | TemporaryExists(path: string)

  datatype Plan = Planned(items: seq<Item>) | Refused(why: Refusal)

  datatype Tree = Tree(root: string, quarantine: string)

  function PathOf(t: Tree, relative: string): string {
    t.root + ("/" + relative)
  }

  /** The quarantine lies below the root. */
  function RawOf(t: Tree, relative: string): string {
    PathOf(t, t.quarantine + ("/" + relative + ".raw"))
  }

  function TemporaryOf(path: string): string {
    path + ".admission-tmp"
  }

  datatype Choice = Skip | Take(item: Item) | Refuse(why: Refusal)

  /** What planning makes of one path below the root. */
  function Choose(files: Files, t: Tree, relative: string, image: string): Choice {
    var path := PathOf(t, relative);
    if path !in files || files[path].content.Undecodable? then Skip
    else
      var file := files[path];
      var r := C.Rewritten(file.content.text, SERVICE, image);
      if r.Miscounted? then if r.found == 0 then Skip else Refuse(SeveralImages(path, r.found))
      else if r.text == file.content.text then Skip
      else if RawOf(t, relative) in files then Refuse(RawExists(RawOf(t, relative)))
      else if TemporaryOf(path) in files then Refuse(TemporaryExists(TemporaryOf(path)))
      else
        var raw, temporary := RawOf(t, relative), TemporaryOf(path);
        Take(Item(path, raw, temporary, file.content.text, r.text, file.mode % 512, file.owner))
  }

  function Choices(files: Files, t: Tree, candidates: seq<string>, image: string): (choices: seq<Choice>)
    ensures |choices| == |candidates|
  {
    Map(relative => Choose(files, t, relative, image), candidates)
  }

  lemma ChoiceAt(files: Files, t: Tree, candidates: seq<string>, image: string, i: nat)
    requires i < |candidates|
    ensures Choices(files, t, candidates, image)[i] == Choose(files, t, candidates[i], image)
  {
    MapAt(relative => Choose(files, t, relative, image), candidates, i);
  }

  function Gather(choices: seq<Choice>): Plan {
    if choices == [] then Planned([])
    else
      var n := |choices| - 1;
      var before := Gather(choices[..n]);
      if before.Refused? then before
      else match choices[n]
        case Skip => before
        case Take(item) => Planned(before.items + [item])
        case Refuse(why) => Refused(why)
  }

  function PlanOf(files: Files, t: Tree, candidates: seq<string>, image: string): Plan {
    Gather(Choices(files, t, candidates, image))
  }

  /** What planning makes of one candidate. */
  method ChooseOne(files: Files, t: Tree, relative: string, image: string) returns (c: Choice)
    ensures c == Choose(files, t, relative, image)
  {
    var path := PathOf(t, relative);
    if path !in files {
      return Skip;
    }
    var file := files[path];
    if file.content.Undecodable? {
      return Skip;
    }
    var original := file.content.text;
    var r := C.ReplaceServiceImage(original, SERVICE, image);
    if r.Miscounted? {
      if r.found == 0 {
        return Skip;
      }
      return Refuse(SeveralImages(path, r.found));
    }
    if r.text == original {
      return Skip;
    }
    var raw := RawOf(t, relative);
    if raw in files {
      return Refuse(RawExists(raw));
    }
    var temporary := TemporaryOf(path);
    if temporary in files {
      return Refuse(TemporaryExists(temporary));
    }
    return Take(Item(path, raw, temporary, original, r.text, file.mode % 512, file.owner));
  }

  method NextChoice(files: Files, t: Tree, candidates: seq<string>, image: string, i: nat) returns (c: Choice)
    requires i < |candidates|
    ensures c == Choices(files, t, candidates, image)[i]
  {
    c := ChooseOne(files, t, candidates[i], image);
    ChoiceAt(files, t, candidates, image, i);
  }

  lemma GatherOne(choices: seq<Choice>, i: nat)
    requires i < |choices| && Gather(choices[..i]).Planned?
    ensures Gather(choices[..i + 1]) == match choices[i]
      case Skip => Gather(choices[..i])
      case Take(item) => Planned(Gather(choices[..i]).items + [item])
      case Refuse(why) => Refused(why)
  {
    assert choices[..i + 1][..i] == choices[..i];
  }

  method MakePlan(files: Files, t: Tree, candidates: seq<string>, image: string) returns (plan: Plan)
    ensures plan == PlanOf(files, t, candidates, image)
    ensures plan.Refused? <==> exists i :: 0 <= i < |candidates| && Hinders(files, t, candidates[i], image)
  {
    PlanMeans(files, t, candidates, image);
    var items := [];
    ghost var choices := Choices(files, t, candidates, image);
    for i := 0 to |candidates|
      invariant Gather(choices[..i]) == Planned(items)
    {
      var c := NextChoice(files, t, candidates, image, i);
      GatherOne(choices, i);
      match c
      case Skip =>
      case Take(item) => items := items + [item];
      case Refuse(why) =>
        RefusedStays(choices, i + 1);
        return Refused(why);
    }
    assert choices[..|candidates|] == choices;
    return Planned(items);
  }

  lemma {:induction false} RefusedStays(choices: seq<Choice>, i: nat)
    requires i <= |choices| && Gather(choices[..i]).Refused?
    ensures Gather(choices) == Gather(choices[..i])
  {
    var n := |choices| - 1;
    if i <= n {
      assert choices[..n][..i] == choices[..i];
      RefusedStays(choices[..n], i);
    } else {
      assert choices[..i] == choices;
    }
  }

  /** The planned files exist, keep their permission bits and owner, and nothing else
      stands where their raw copies and temporaries will. */
  ghost predicate Ready(files: Files, item: Item) {
    && item.path in files && item.raw !in files && item.temporary !in files
    && item.mode == files[item.path].mode % 512 && item.owner == files[item.path].owner
    && files[item.path].content == Text(item.original)
  }

  ghost predicate Apart(a: Item, b: Item) {
    a.path != b.path && a.raw != b.raw && a.temporary != b.temporary
  }

  ghost predicate Good(files: Files, items: seq<Item>) {
    && (forall i :: 0 <= i < |items| ==> Ready(files, items[i]))
    && (forall i, j :: 0 <= i < |items| && 0 <= j < |items| ==> items[i].raw != items[j].temporary)
    && (forall i, j :: 0 <= i < |items| && 0 <= j < |items| && i != j ==> Apart(items[i], items[j]))
  }

  // ----- the plan is safe to carry out

  /** The planned items are the taken ones, in order. */
  lemma {:induction false} GatheredFrom(choices: seq<Choice>, k: nat) returns (i: nat)
    requires Gather(choices).Planned? && k < |Gather(choices).items|
    ensures i < |choices| && choices[i] == Take(Gather(choices).items[k])
  {
    var n := |choices| - 1;
    var before := Gather(choices[..n]);
    if k < |before.items| {
      i := GatheredFrom(choices[..n], k);
    } else {
      i := n;
    }
  }

  lemma {:induction false} GatheredApart(choices: seq<Choice>)
    requires Gather(choices).Planned?
    requires forall i, j ::
      0 <= i < j < |choices| && choices[i].Take? && choices[j].Take? ==> Apart(choices[i].item, choices[j].item)
    ensures var items := Gather(choices).items;
      forall k, l :: 0 <= k < l < |items| ==> Apart(items[k], items[l])
  {
    if choices != [] {
      var n := |choices| - 1;
      GatheredApart(choices[..n]);
      var before := Gather(choices[..n]).items;
      if choices[n].Take? {
        forall k | 0 <= k < |before|
          ensures Apart(before[k], choices[n].item)
        {
          var i := GatheredFrom(choices[..n], k);
          assert choices[i] == choices[..n][i];
        }
      }
    }
  }

  lemma Cancel(pre: string, a: string, b: string, post: string)
    requires pre + (a + post) == pre + (b + post)
    ensures a == b
  {
    var s, u := pre + (a + post), pre + (b + post);
    assert a == s[|pre|..|s| - |post|] && b == u[|pre|..|u| - |post|];
  }

  lemma NamesApart(t: Tree, a: string, b: string)
    requires a != b
    ensures PathOf(t, a) != PathOf(t, b) && RawOf(t, a) != RawOf(t, b)
  {
    if PathOf(t, a) == PathOf(t, b) {
      assert PathOf(t, a) == (t.root + "/") + (a + "") && PathOf(t, b) == (t.root + "/") + (b + "");
      Cancel(t.root + "/", a, b, "");
    }
    if RawOf(t, a) == RawOf(t, b) {
      var pre := t.root + "/" + t.quarantine + "/";
      assert RawOf(t, a) == pre + (a + ".raw") && RawOf(t, b) == pre + (b + ".raw");
      Cancel(pre, a, b, ".raw");
    }
  }

  lemma TemporariesApart(a: string, b: string)
    requires a != b
    ensures TemporaryOf(a) != TemporaryOf(b)
  {
    if TemporaryOf(a) == TemporaryOf(b) {
      assert TemporaryOf(a) == "" + (a + ".admission-tmp") && TemporaryOf(b) == "" + (b + ".admission-tmp");
      Cancel("", a, b, ".admission-tmp");
    }
  }

  lemma RawIsNoTemporary(t: Tree, a: string, path: string)
    ensures RawOf(t, a) != TemporaryOf(path)
  {
    var raw, temporary := RawOf(t, a), TemporaryOf(path);
    assert raw[|raw| - 1] == 'w' && temporary[|temporary| - 1] == 'p';
  }

  lemma TakenIsReady(files: Files, t: Tree, relative: string, image: string)
    requires Choose(files, t, relative, image).Take?
    ensures var item := Choose(files, t, relative, image).item;
      && Ready(files, item) && item.path == PathOf(t, relative) && item.raw == RawOf(t, relative)
      && item.temporary == TemporaryOf(item.path)
      && C.Rewritten(item.original, SERVICE, image) == C.Rendered(item.rendered) && item.rendered != item.original
  {
  }

  lemma TakenApart(files: Files, t: Tree, a: string, b: string, image: string)
    requires a != b && Choose(files, t, a, image).Take? && Choose(files, t, b, image).Take?
    ensures Apart(Choose(files, t, a, image).item, Choose(files, t, b, image).item)
  {
    TakenIsReady(files, t, a, image);
    TakenIsReady(files, t, b, image);
    NamesApart(t, a, b);
    TemporariesApart(PathOf(t, a), PathOf(t, b));
  }

  /** Where a planned item comes from. */
  lemma PlannedFrom(files: Files, t: Tree, candidates: seq<string>, image: string, k: nat) returns (i: nat)
    requires PlanOf(files, t, candidates, image).Planned? && k < |PlanOf(files, t, candidates, image).items|
    ensures i < |candidates|
    ensures Choose(files, t, candidates[i], image) == Take(PlanOf(files, t, candidates, image).items[k])
  {
    i := GatheredFrom(Choices(files, t, candidates, image), k);
    ChoiceAt(files, t, candidates, image, i);
  }

  /** Every plan over distinct candidates can be carried out: the files exist, their raw
      copies and temporaries take no one's place, and no two names collide. */
  lemma PlanIsGood(files: Files, t: Tree, candidates: seq<string>, image: string)
    requires Sorting.Distinct(candidates) && PlanOf(files, t, candidates, image).Planned?
    ensures Good(files, PlanOf(files, t, candidates, image).items)
  {
    var choices := Choices(files, t, candidates, image);
    var items := Gather(choices).items;
    forall i, j | 0 <= i < j < |choices| && choices[i].Take? && choices[j].Take?
      ensures Apart(choices[i].item, choices[j].item)
    {
      ChoiceAt(files, t, candidates, image, i);
      ChoiceAt(files, t, candidates, image, j);
      TakenApart(files, t, candidates[i], candidates[j], image);
    }
    GatheredApart(choices);
    forall k | 0 <= k < |items|
      ensures Ready(files, items[k])
    {
      var i := PlannedFrom(files, t, candidates, image, k);
      TakenIsReady(files, t, candidates[i], image);
    }
    forall k, l | 0 <= k < |items| && 0 <= l < |items|
      ensures items[k].raw != items[l].temporary
    {
      var i := PlannedFrom(files, t, candidates, image, k);
      var j := PlannedFrom(files, t, candidates, image, l);
      TakenIsReady(files, t, candidates[i], image);
      TakenIsReady(files, t, candidates[j], image);
      RawIsNoTemporary(t, candidates[i], items[l].path);
    }
    assert forall k, l :: 0 <= k < |items| && 0 <= l < |items| && k != l ==> Apart(items[k], items[l]);
  }

  lemma {:induction false} GatheredAll(choices: seq<Choice>, i: nat)
    requires i < |choices| && Gather(choices).Planned?
    ensures !choices[i].Refuse? && (choices[i].Take? ==> choices[i].item in Gather(choices).items)
  {
    var n := |choices| - 1;
    if i < n {
      GatheredAll(choices[..n], i);
      assert choices[..n][i] == choices[i];
    }
  }

  lemma {:induction false} GatheredNone(choices: seq<Choice>)
    requires forall i :: 0 <= i < |choices| ==> choices[i].Skip?
    ensures Gather(choices) == Planned([])
  {
    if choices != [] {
      GatheredNone(choices[..|choices| - 1]);
    }
  }

  /** How many lines of a file give the service's image, none if it does not decode or exist. */
  function Images(files: Files, t: Tree, relative: string): nat {
    var path := PathOf(t, relative);
    if path !in files || files[path].content.Undecodable? then 0
    else C.Count(C.FlagsOf(C.SplitLines(files[path].content.text), SERVICE))
  }

  /** A file with one image, of which the rewriting is another text. */
  predicate Outdated(files: Files, t: Tree, relative: string, image: string) {
    var path := PathOf(t, relative);
    && path in files && files[path].content.Text? && Images(files, t, relative) == 1
    && C.Rewritten(files[path].content.text, SERVICE, image) != C.Rendered(files[path].content.text)
  }

  /** What stands in the way of a run: a file with several images, or one to be rewritten whose
      raw copy or temporary would take another file's place. */
  predicate Hinders(files: Files, t: Tree, relative: string, image: string) {
    || Images(files, t, relative) >= 2
    || (Outdated(files, t, relative, image)
        && (RawOf(t, relative) in files || TemporaryOf(PathOf(t, relative)) in files))
  }

  lemma ChoiceMeans(files: Files, t: Tree, relative: string, image: string)
    ensures Choose(files, t, relative, image).Refuse? <==> Hinders(files, t, relative, image)
    ensures Choose(files, t, relative, image).Take? <==>
      Outdated(files, t, relative, image) && !Hinders(files, t, relative, image)
    ensures Choose(files, t, relative, image).Refuse? && Images(files, t, relative) >= 2 ==>
      Choose(files, t, relative, image).why == SeveralImages(PathOf(t, relative), Images(files, t, relative))
  {
  }

  lemma {:induction false} GatherRefuses(choices: seq<Choice>) returns (i: nat)
    ensures Gather(choices).Refused? <==> exists k :: 0 <= k < |choices| && choices[k].Refuse?
    ensures Gather(choices).Refused? ==>
      && i < |choices| && choices[i] == Refuse(Gather(choices).why)
      && forall k :: 0 <= k < i ==> !choices[k].Refuse?
  {
    i := 0;
    if choices != [] {
      var n := |choices| - 1;
      i := GatherRefuses(choices[..n]);
      assert forall k :: 0 <= k < n ==> choices[..n][k] == choices[k];
      if Gather(choices[..n]).Planned? {
        i := n;
      }
    }
  }

  /** A run is refused if and only if a candidate stands in its way, and for the first that does.
      Otherwise exactly the files with one outdated image are planned. */
  lemma PlanMeans(files: Files, t: Tree, candidates: seq<string>, image: string)
    ensures PlanOf(files, t, candidates, image).Refused? <==>
      exists i :: 0 <= i < |candidates| && Hinders(files, t, candidates[i], image)
    ensures PlanOf(files, t, candidates, image).Refused? ==>
      exists i ::
        && 0 <= i < |candidates| && Hinders(files, t, candidates[i], image)
        && Choose(files, t, candidates[i], image) == Refuse(PlanOf(files, t, candidates, image).why)
        && forall k :: 0 <= k < i ==> !Hinders(files, t, candidates[k], image)
    ensures PlanOf(files, t, candidates, image).Planned? ==>
      var items := PlanOf(files, t, candidates, image).items;
      && (forall i :: 0 <= i < |candidates| && Outdated(files, t, candidates[i], image) ==>
            exists item :: item in items && item.path == PathOf(t, candidates[i]))
      && (forall item :: item in items ==>
            exists i :: 0 <= i < |candidates| && Outdated(files, t, candidates[i], image)
                        && item.path == PathOf(t, candidates[i]))
  {
    var choices := Choices(files, t, candidates, image);
    forall i | 0 <= i < |candidates|
      ensures choices[i] == Choose(files, t, candidates[i], image)
      ensures choices[i].Refuse? <==> Hinders(files, t, candidates[i], image)
    {
      ChoiceAt(files, t, candidates, image, i);
      ChoiceMeans(files, t, candidates[i], image);
    }
    var first := GatherRefuses(choices);
    if PlanOf(files, t, candidates, image).Planned? {
      PlannedAreOutdated(files, t, candidates, image);
    }
  }

  lemma PlannedAreOutdated(files: Files, t: Tree, candidates: seq<string>, image: string)
    requires PlanOf(files, t, candidates, image).Planned?
    ensures var items := PlanOf(files, t, candidates, image).items;
      && (forall i :: 0 <= i < |candidates| && Outdated(files, t, candidates[i], image) ==>
            exists item :: item in items && item.path == PathOf(t, candidates[i]))
      && (forall item :: item in items ==>
            exists i :: 0 <= i < |candidates| && Outdated(files, t, candidates[i], image)
                        && item.path == PathOf(t, candidates[i]))
  {
    var items := PlanOf(files, t, candidates, image).items;
    forall i | 0 <= i < |candidates| && Outdated(files, t, candidates[i], image)
      ensures exists item :: item in items && item.path == PathOf(t, candidates[i])
    {
      ChoiceAt(files, t, candidates, image, i);
      ChoiceMeans(files, t, candidates[i], image);
      GatheredAll(Choices(files, t, candidates, image), i);
      TakenIsReady(files, t, candidates[i], image);
    }
    forall item | item in items
      ensures exists i :: 0 <= i < |candidates| && Outdated(files, t, candidates[i], image)
                          && item.path == PathOf(t, candidates[i])
    {
      var k :| 0 <= k < |items| && items[k] == item;
      var i := PlannedFrom(files, t, candidates, image, k);
      ChoiceMeans(files, t, candidates[i], image);
      TakenIsReady(files, t, candidates[i], image);
    }
  }

  /** The raw copy of a file lies below the quarantine. */
  lemma RawIsQuarantined(t: Tree, a: string, b: string)
    requires PathOf(t, a) == RawOf(t, b)
    ensures t.quarantine + "/" <= a
  {
    var below := t.quarantine + ("/" + b + ".raw");
    if a != below {
      NamesApart(t, a, below);
    }
    assert below == t.quarantine + "/" + (b + ".raw");
  }
}
