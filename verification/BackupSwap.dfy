/** scripts/edge_image_admission.py, sanitize_backup_tree: carrying a plan out, with an undo
    list. Any operation may fail; single renames are atomic and the undo steps succeed. */
module BackupSwap {
  import opened BackupTree
  import opened Common
  import C = ComposeImage
  import Sorting

  // ----- what carrying the plan out means

  /** The file rewritten, its original in quarantine without permissions. */
  function Swapped(files: Files, item: Item): Files
    requires item.path in files
  {
    files[item.raw := files[item.path].(mode := 0)][item.path := File(Text(item.rendered), item.mode, item.owner)]
  }

  function Done(files: Files, items: seq<Item>, n: nat): Files
    requires n <= |items|
  {
    if n == 0 then files else Again(Done(files, items, n - 1), items[n - 1])
  }

  function Again(files: Files, item: Item): Files {
    if item.path in files then Swapped(files, item) else files
  }

  /** The files with the first `n` planned ones back in place. */
  function Masked(files: Files, items: seq<Item>, i: nat, n: nat): Files
    requires i <= n <= |items| && forall k :: i <= k < n ==> items[k].path in files
    decreases n - i
  {
    if i == n then files
    else
      var path := items[i].path;
      Masked(files, items, i + 1, n)[path := files[path].(mode := items[i].mode)]
  }

  /** None of the first `n` items writes to this path. */
  ghost predicate Clear(items: seq<Item>, n: nat, p: string)
    requires n <= |items|
  {
    forall i :: 0 <= i < n ==> p != items[i].path && p != items[i].raw
  }

  lemma {:induction false} DoneElsewhere(files: Files, items: seq<Item>, n: nat, p: string)
    requires n <= |items| && Clear(items, n, p)
    ensures p in Done(files, items, n) <==> p in files
    ensures p in files ==> Done(files, items, n)[p] == files[p]
  {
    if n > 0 {
      DoneElsewhere(files, items, n - 1, p);
    }
  }

  /** Changing a file no item names, before or after, is the same. */
  lemma {:induction false} DoneUpdate(files: Files, items: seq<Item>, n: nat, p: string, file: File)
    requires n <= |items| && Clear(items, n, p)
    ensures Done(files[p := file], items, n) == Done(files, items, n)[p := file]
  {
    if n > 0 {
      DoneUpdate(files, items, n - 1, p, file);
    }
  }

  /** The names of an item are clear of the items before it. */
  lemma NamesClear(files: Files, items: seq<Item>, m: nat)
    requires m < |items| && Good(files, items)
    ensures Clear(items, m, items[m].path) && Clear(items, m, items[m].raw) && Clear(items, m, items[m].temporary)
  {
    forall k | 0 <= k < m
      ensures items[m].path != items[k].path && items[m].path != items[k].raw
      ensures items[m].raw != items[k].path && items[m].raw != items[k].raw
      ensures items[m].temporary != items[k].path && items[m].temporary != items[k].raw
    {
      assert Ready(files, items[k]) && Ready(files, items[m]) && Apart(items[k], items[m]);
    }
  }

  /** While one item is being swapped: its original has moved, and nothing but its three
      names is touched. */
  ghost predicate Midway(files: Files, now: Files, item: Item) {
    && item.path in files && item.raw in now && now[item.raw].(mode := 0) == files[item.path].(mode := 0)
    && now - {item.path, item.raw, item.temporary} == files - {item.path, item.raw, item.temporary}
  }

  /** One item undone; the temporary is looked for only after a failure among the items. */
  function Undone(now: Files, item: Item, temporaries: bool): Files {
    var left := now - (if temporaries then {item.temporary, item.path} else {item.path});
    if item.raw in left then (left - {item.raw})[item.path := left[item.raw].(mode := item.mode)] else left
  }

  /** The first `n` items undone, the last one first. */
  function UndoneFrom(now: Files, items: seq<Item>, n: nat, temporaries: bool): Files
    requires n <= |items|
    decreases n
  {
    if n == 0 then now else UndoneFrom(Undone(now, items[n - 1], temporaries), items, n - 1, temporaries)
  }

  lemma UndoMidway(files: Files, now: Files, item: Item, temporaries: bool)
    requires Midway(files, now, item) && item.raw !in files && item.temporary !in files && item.path != item.raw
    requires item.raw != item.temporary && (temporaries || item.temporary !in now)
    ensures Undone(now, item, temporaries) == files[item.path := files[item.path].(mode := item.mode)]
  {
    var rest := files - {item.path, item.raw, item.temporary};
    assert files[item.path := files[item.path].(mode := item.mode)]
      == rest[item.path := files[item.path].(mode := item.mode)];
  }

  lemma SwappedIsMidway(files: Files, item: Item)
    requires item.path in files && item.path != item.raw
    ensures Midway(files, Swapped(files, item), item)
  {
  }

  /** The tree while one item is being swapped, by what lies at its three names. */
  function Stage(files: Files, item: Item, raw: File, temporary: Option<File>, path: Option<File>): Files {
    var rest := (files - {item.path, item.raw, item.temporary})[item.raw := raw];
    var more := if temporary.Some? then rest[item.temporary := temporary.value] else rest;
    if path.Some? then more[item.path := path.value] else more
  }

  lemma StageIsMidway(files: Files, item: Item, raw: File, temporary: Option<File>, path: Option<File>)
    requires item.path in files && raw.(mode := 0) == files[item.path].(mode := 0)
    requires item.raw != item.path && item.raw != item.temporary && item.path != item.temporary
    ensures Midway(files, Stage(files, item, raw, temporary, path), item)
  {
  }

  lemma StageMoves(files: Files, item: Item, raw: File, a: File, b: File)
    requires item.path in files && item.raw !in files && item.temporary !in files && item.raw != item.temporary
    ensures (files - {item.path})[item.raw := raw] == Stage(files, item, raw, None, None)
    ensures Stage(files, item, raw, None, None)[item.temporary := a] == Stage(files, item, raw, Some(a), None)
    ensures Stage(files, item, raw, Some(a), None)[item.temporary := b] == Stage(files, item, raw, Some(b), None)
    ensures (Stage(files, item, raw, Some(a), None) - {item.temporary})[item.path := a]
      == Stage(files, item, raw, None, Some(a))
    ensures Stage(files, item, raw, None, Some(a))[item.raw := b] == Stage(files, item, b, None, Some(a))
    ensures Stage(files, item, b, None, Some(a)) == files[item.raw := b][item.path := a]
  {
  }

  // ----- undoing

  lemma {:induction false} MaskedElsewhere(files: Files, items: seq<Item>, i: nat, n: nat, p: string)
    requires i <= n <= |items| && forall k :: i <= k < n ==> items[k].path in files && p != items[k].path
    ensures p in Masked(files, items, i, n) <==> p in files
    ensures p in files ==> Masked(files, items, i, n)[p] == files[p]
    decreases n - i
  {
    if i < n {
      MaskedElsewhere(files, items, i + 1, n, p);
    }
  }

  lemma {:induction false} MaskedKeys(files: Files, items: seq<Item>, i: nat, n: nat)
    requires i <= n <= |items| && forall k :: i <= k < n ==> items[k].path in files
    ensures Masked(files, items, i, n).Keys == files.Keys
    decreases n - i
  {
    if i < n {
      MaskedKeys(files, items, i + 1, n);
    }
  }

  /** Before item `i - 1` is undone: it is being swapped or was, on top of the items before
      it, and those after it are back. */
  ghost predicate Undoing(files: Files, items: seq<Item>, i: nat, n: nat, now: Files)
    requires i <= n <= |items| && Good(files, items)
  {
    var base := Masked(files, items, i, n);
    if i == 0 then now == base else Midway(Done(base, items, i - 1), now, items[i - 1])
  }

  lemma BaseFacts(files: Files, items: seq<Item>, i: nat, n: nat)
    requires 0 < i <= n <= |items| && Good(files, items)
    ensures var x, item := Done(Masked(files, items, i, n), items, i - 1), items[i - 1];
      && item.path in x && x[item.path] == files[item.path]
      && item.raw !in x && item.temporary !in x && item.path != item.raw
  {
    MaskedBefore(files, items, i, n);
    NamesClear(files, items, i - 1);
    DoneBelow(Masked(files, items, i, n), items, i - 1);
  }

  lemma DoneBelow(base: Files, items: seq<Item>, m: nat)
    requires m < |items| && Clear(items, m, items[m].path) && Clear(items, m, items[m].raw)
    requires Clear(items, m, items[m].temporary)
    requires items[m].path in base && items[m].raw !in base && items[m].temporary !in base
    ensures var x, item := Done(base, items, m), items[m];
      && item.path in x && x[item.path] == base[item.path]
      && item.raw !in x && item.temporary !in x && item.path != item.raw
  {
    DoneElsewhere(base, items, m, items[m].path);
    DoneElsewhere(base, items, m, items[m].raw);
    DoneElsewhere(base, items, m, items[m].temporary);
  }

  lemma MaskedBefore(files: Files, items: seq<Item>, i: nat, n: nat)
    requires 0 < i <= n <= |items| && Good(files, items)
    ensures var base, item := Masked(files, items, i, n), items[i - 1];
      item.path in base && base[item.path] == files[item.path] && item.raw !in base && item.temporary !in base
  {
    MaskedKeys(files, items, i, n);
    forall k | i <= k < n
      ensures items[k].path in files && items[i - 1].path != items[k].path
    {
      assert Ready(files, items[k]) && Apart(items[i - 1], items[k]);
    }
    assert Ready(files, items[i - 1]);
    MaskedElsewhere(files, items, i, n, items[i - 1].path);
  }

  lemma UndoStep(files: Files, items: seq<Item>, i: nat, n: nat, now: Files, temporaries: bool)
    requires 0 < i <= n <= |items| && Good(files, items) && Undoing(files, items, i, n, now)
    requires temporaries || items[i - 1].temporary !in now
    ensures Undone(now, items[i - 1], temporaries) == Done(Masked(files, items, i - 1, n), items, i - 1)
  {
    BaseFacts(files, items, i, n);
    assert Ready(files, items[i - 1]);
    UndoMidway(Done(Masked(files, items, i, n), items, i - 1), now, items[i - 1], temporaries);
    OneMoreMasked(files, items, i, n);
  }

  lemma OneMoreMasked(files: Files, items: seq<Item>, i: nat, n: nat)
    requires 0 < i <= n <= |items| && Good(files, items)
    ensures var item := items[i - 1];
      Done(Masked(files, items, i - 1, n), items, i - 1)
      == Done(Masked(files, items, i, n), items, i - 1)[item.path := files[item.path].(mode := item.mode)]
  {
    var item := items[i - 1];
    NamesClear(files, items, i - 1);
    DoneUpdate(Masked(files, items, i, n), items, i - 1, item.path, files[item.path].(mode := item.mode));
  }

  /** With `i` items done and the later ones back, the next undo has its place. */
  lemma UndoNext(files: Files, items: seq<Item>, i: nat, n: nat, now: Files)
    requires i <= n <= |items| && Good(files, items) && now == Done(Masked(files, items, i, n), items, i)
    ensures Undoing(files, items, i, n, now)
  {
    if i > 0 {
      BaseFacts(files, items, i, n);
      SwappedIsMidway(Done(Masked(files, items, i, n), items, i - 1), items[i - 1]);
    }
  }

  /** The item after those swapped is ready to be. */
  lemma NextIsReady(files: Files, items: seq<Item>, i: nat)
    requires i < |items| && Good(files, items)
    ensures var x, item := Done(files, items, i), items[i];
      && item.path in x && item.raw !in x && item.temporary !in x && item.raw != item.temporary
      && Done(files, items, i + 1) == Swapped(x, item)
  {
    BaseFacts(files, items, i + 1, i + 1);
    assert Ready(files, items[i]);
  }

  /** Where the item loop fails, the undo list has its place. */
  lemma FailedAt(files: Files, items: seq<Item>, i: nat, moved: bool, now: Files)
    requires i < |items| && Good(files, items)
    requires if moved then Midway(Done(files, items, i), now, items[i]) else now == Done(files, items, i)
    ensures var n := if moved then i + 1 else i; Undoing(files, items, n, n, now)
  {
    if !moved {
      UndoNext(files, items, i, i, now);
    }
  }

  lemma UndoOne(files: Files, items: seq<Item>, i: nat, n: nat, now: Files)
    requires 0 < i <= n <= |items| && Good(files, items) && Undoing(files, items, i, n, now)
    ensures Undoing(files, items, i - 1, n, Undone(now, items[i - 1], true))
  {
    UndoStep(files, items, i, n, now, true);
    UndoNext(files, items, i - 1, n, Undone(now, items[i - 1], true));
  }

  /** Undoing from anywhere in the item loop brings the files back. */
  lemma {:induction false} UndoneAll(files: Files, items: seq<Item>, i: nat, n: nat, now: Files)
    requires i <= n <= |items| && Good(files, items) && Undoing(files, items, i, n, now)
    ensures UndoneFrom(now, items, i, true) == Masked(files, items, 0, n)
    decreases i
  {
    if i > 0 {
      UndoOne(files, items, i, n, now);
      UndoneAll(files, items, i - 1, n, Undone(now, items[i - 1], true));
    }
  }

  /** So does undoing all items after the loop, without looking for temporaries. */
  lemma {:induction false} UndoneDone(files: Files, items: seq<Item>, i: nat, n: nat)
    requires i <= n <= |items| && Good(files, items)
    ensures UndoneFrom(Done(Masked(files, items, i, n), items, i), items, i, false) == Masked(files, items, 0, n)
    decreases i
  {
    if i > 0 {
      BaseFacts(files, items, i, n);
      assert Ready(files, items[i - 1]);
      UndoNext(files, items, i, n, Done(Masked(files, items, i, n), items, i));
      UndoStep(files, items, i, n, Done(Masked(files, items, i, n), items, i), false);
      UndoneDone(files, items, i - 1, n);
    }
  }

  // ----- what it comes to

  /** A planned file is rewritten with its permission bits and owner, and its raw copy is
      the original. */
  lemma {:induction false} DoneAt(files: Files, items: seq<Item>, n: nat, i: nat)
    requires i < n <= |items| && Good(files, items)
    ensures var done, item := Done(files, items, n), items[i];
      && item.path in done && done[item.path] == File(Text(item.rendered), item.mode, item.owner)
      && item.raw in done && done[item.raw] == files[item.path].(mode := 0)
  {
    assert Ready(files, items[i]) && Ready(files, items[n - 1]);
    if i < n - 1 {
      DoneAt(files, items, n - 1, i);
      assert Apart(items[i], items[n - 1]);
    } else {
      BaseFacts(files, items, n, n);
    }
  }

  /** An undo gives every file its contents and owner back and leaves no file behind; the
      modes come back exactly where no special bit was set. */
  lemma RestoredExactly(files: Files, items: seq<Item>, n: nat)
    requires n <= |items| && Good(files, items)
    ensures Masked(files, items, 0, n).Keys == files.Keys
    ensures forall p :: p in files ==> Masked(files, items, 0, n)[p].(mode := 0) == files[p].(mode := 0)
    ensures Masked(files, items, 0, n) == files <==> forall i :: 0 <= i < n ==> files[items[i].path].mode < 512
  {
    MaskedKeys(files, items, 0, n);
    var back := Masked(files, items, 0, n);
    forall p | p in files
      ensures back[p].(mode := 0) == files[p].(mode := 0)
      ensures (forall i :: 0 <= i < n ==> files[items[i].path].mode < 512) ==> back[p] == files[p]
    {
      if i :| 0 <= i < n && items[i].path == p {
        MaskedAt(files, items, 0, n, i);
        assert Ready(files, items[i]);
      } else {
        forall k | 0 <= k < n
          ensures items[k].path in files && p != items[k].path
        {
          assert Ready(files, items[k]);
        }
        MaskedElsewhere(files, items, 0, n, p);
      }
    }
    forall i | 0 <= i < n
      ensures back == files ==> files[items[i].path].mode < 512
    {
      MaskedAt(files, items, 0, n, i);
      assert Ready(files, items[i]);
    }
  }

  lemma {:induction false} MaskedAt(files: Files, items: seq<Item>, i: nat, n: nat, k: nat)
    requires i <= k < n <= |items| && Good(files, items)
    ensures items[k].path in Masked(files, items, i, n)
    ensures Masked(files, items, i, n)[items[k].path] == files[items[k].path].(mode := items[k].mode)
    decreases n - i
  {
    assert Ready(files, items[k]);
    if i < k {
      MaskedAt(files, items, i + 1, n, k);
      assert Apart(items[i], items[k]);
    }
  }

  // ----- carrying the plan out

  /** The operations on one item, in their order. */
  datatype Op = MakeDirectory | MoveToRaw | WriteTemporary | ChmodTemporary | ChownTemporary | ReplacePath | ChmodRaw

  /** The operation that fails, if one does; a failing write may leave part of its text. */
  datatype Trouble =
    | Smooth
    | AtItem(index: nat, op: Op, partial: Option<string>)
    | AtManifestDirectory
    | AtManifestWrite(partial: Option<string>)
    | AtManifestReplace

  /** An operation of a run over `n` items fails. */
  predicate Strikes(trouble: Trouble, n: nat) {
    !trouble.Smooth? && (trouble.AtItem? ==> trouble.index < n)
  }

  /** How many of `n` files are moved by then. */
  function MovedBy(trouble: Trouble, n: nat): (moved: nat)
    ensures moved <= n
  {
    if !trouble.AtItem? || trouble.index >= n then n
    else if trouble.op.MakeDirectory? || trouble.op.MoveToRaw? then trouble.index
    else trouble.index + 1
  }

  datatype Outcome =
    | Refusing(why: Refusal) | DryRun | ManifestDirectoryFailed | ManifestBusy
    | RolledBack(moved: nat)
    | Sanitized

  class Backup {
    var files: Files
    const newMode: nat
    const self: Owner

    constructor (files: Files, newMode: nat, self: Owner)
      ensures this.files == files
    {
      this.files, this.newMode, this.self := files, newMode, self;
    }

    method SwapItem(item: Item, fails: Option<Op>, partial: Option<string>) returns (moved: bool, ok: bool)
      requires item.path in files && item.raw !in files && item.temporary !in files && item.raw != item.temporary
      modifies this
      ensures ok <==> fails.None?
      ensures moved <==> fails != Some(MakeDirectory) && fails != Some(MoveToRaw)
      ensures ok ==> moved && files == Swapped(old(files), item)
      ensures !moved ==> files == old(files)
      ensures moved ==> Midway(old(files), files, item)
    {
      if fails == Some(MakeDirectory) || fails == Some(MoveToRaw) {
        return false, false;
      }
      ghost var files0 := files;
      var raw := files[item.path];
      files := (files - {item.path})[item.raw := raw];
      StageMoves(files0, item, raw, raw, raw);
      StageIsMidway(files0, item, raw, None, None);
      if fails == Some(WriteTemporary) {
        if partial.Some? {
          var part := File(Text(partial.value), newMode, self);
          files := files[item.temporary := part];
          StageMoves(files0, item, raw, part, raw);
          StageIsMidway(files0, item, raw, Some(part), None);
        }
        return true, false;
      }
      ok := WriteRest(item, fails, files0, raw);
      return true, ok;
    }

    /** The steps of a swap after the move. */
    method WriteRest(item: Item, fails: Option<Op>, ghost files0: Files, raw: File) returns (ok: bool)
      requires item.path in files0 && item.raw !in files0 && item.temporary !in files0 && item.raw != item.temporary
      requires raw == files0[item.path] && files == Stage(files0, item, raw, None, None)
      requires fails.Some? ==> !fails.value.MakeDirectory? && !fails.value.MoveToRaw? && !fails.value.WriteTemporary?
      modifies this
      ensures ok <==> fails.None?
      ensures ok ==> files == Swapped(files0, item)
      ensures Midway(files0, files, item)
    {
      var written := File(Text(item.rendered), newMode, self);
      files := files[item.temporary := written];
      StageMoves(files0, item, raw, written, written.(mode := item.mode));
      StageIsMidway(files0, item, raw, Some(written), None);
      if fails == Some(ChmodTemporary) {
        return false;
      }
      written := written.(mode := item.mode);
      files := files[item.temporary := written];
      StageIsMidway(files0, item, raw, Some(written), None);
      if fails == Some(ChownTemporary) {
        return false;
      }
      StageMoves(files0, item, raw, written, written.(owner := item.owner));
      written := written.(owner := item.owner);
      files := files[item.temporary := written];
      StageIsMidway(files0, item, raw, Some(written), None);
      if fails == Some(ReplacePath) {
        return false;
      }
      StageMoves(files0, item, raw, written, raw.(mode := 0));
      files := (files - {item.temporary})[item.path := written];
      StageIsMidway(files0, item, raw, None, Some(written));
      if fails == Some(ChmodRaw) {
        return false;
      }
      files := files[item.raw := raw.(mode := 0)];
      StageIsMidway(files0, item, raw.(mode := 0), None, Some(written));
      return true;
    }

    method UndoItem(item: Item, temporaries: bool)
      modifies this
      ensures files == Undone(old(files), item, temporaries)
    {
      if temporaries && item.temporary in files {
        files := files - {item.temporary};
      }
      if item.path in files {
        files := files - {item.path};
      }
      if item.raw in files {
        files := files[item.raw := files[item.raw].(mode := item.mode)];
        files := (files - {item.raw})[item.path := files[item.raw]];
      }
    }

    method UndoItems(planned: seq<Item>, completed: nat, temporaries: bool)
      requires completed <= |planned|
      modifies this
      ensures files == UndoneFrom(old(files), planned, completed, temporaries)
    {
      var i := completed;
      while i > 0
        invariant 0 <= i <= completed
        invariant UndoneFrom(files, planned, i, temporaries) == UndoneFrom(old(files), planned, completed, temporaries)
      {
        UndoItem(planned[i - 1], temporaries);
        i := i - 1;
      }
    }

    /** The next item, the ones before it swapped. */
    method SwapNext(planned: seq<Item>, i: nat, trouble: Trouble, ghost files0: Files)
      returns (completed: nat, ok: bool)
      requires i < |planned| && Good(files0, planned) && files == Done(files0, planned, i)
      modifies this
      ensures ok <==> !(trouble.AtItem? && trouble.index == i)
      ensures ok ==> files == Done(files0, planned, i + 1)
      ensures !ok ==> completed == MovedBy(trouble, |planned|) && Undoing(files0, planned, completed, completed, files)
    {
      NextIsReady(files0, planned, i);
      var fails := if trouble.AtItem? && trouble.index == i then Some(trouble.op) else None;
      var partial := if trouble.AtItem? then trouble.partial else None;
      var moved;
      moved, ok := SwapItem(planned[i], fails, partial);
      completed := if moved then i + 1 else i;
      if !ok {
        FailedAt(files0, planned, i, moved, files);
      }
    }

    /** The item loop: it ends with all items swapped, or, exactly if an operation on an item
        fails, with the items moved so far waiting to be undone. */
    method SwapItems(planned: seq<Item>, trouble: Trouble) returns (completed: nat, ok: bool)
      requires Good(files, planned)
      modifies this
      ensures ok <==> !(trouble.AtItem? && trouble.index < |planned|)
      ensures completed == MovedBy(trouble, |planned|)
      ensures ok ==> files == Done(old(files), planned, |planned|)
      ensures !ok ==> Undoing(old(files), planned, completed, completed, files)
    {
      ghost var files0 := files;
      for i := 0 to |planned|
        invariant files == Done(files0, planned, i) && (trouble.AtItem? ==> trouble.index >= i)
      {
        completed, ok := SwapNext(planned, i, trouble, files0);
        if !ok {
          return completed, false;
        }
      }
      return |planned|, true;
    }

    /** All or nothing: with no failing operation the plan is carried out and the manifest
        written; with one, the files moved so far are back. */
    method CarryOut(planned: seq<Item>, manifest: string, text: string, trouble: Trouble) returns (r: Outcome)
      requires Good(files, planned) && forall i :: 0 <= i < |planned| ==> planned[i].raw != TemporaryOf(manifest)
      modifies this
      ensures r.ManifestDirectoryFailed? <==> trouble.AtManifestDirectory?
      ensures r.ManifestBusy? <==> TemporaryOf(manifest) in old(files) && !trouble.AtManifestDirectory?
      ensures r.Sanitized? <==> TemporaryOf(manifest) !in old(files) && !Strikes(trouble, |planned|)
      ensures r.RolledBack? <==>
        TemporaryOf(manifest) !in old(files) && Strikes(trouble, |planned|) && !trouble.AtManifestDirectory?
      ensures r.Sanitized? ==>
        files == Done(old(files), planned, |planned|)[manifest := File(Text(text), newMode, self)]
      ensures r.RolledBack? ==>
        r.moved == MovedBy(trouble, |planned|) && files == Masked(old(files), planned, 0, r.moved)
      ensures r.ManifestDirectoryFailed? || r.ManifestBusy? ==> files == old(files)
    {
      if trouble.AtManifestDirectory? {
        return ManifestDirectoryFailed;
      }
      var temporary := TemporaryOf(manifest);
      if temporary in files {
        return ManifestBusy;
      }
      ghost var files0 := files;
      var completed, ok := SwapItems(planned, trouble);
      if !ok {
        UndoneAll(files0, planned, completed, completed, files);
        UndoItems(planned, completed, true);
        return RolledBack(completed);
      }
      ManifestFree(files0, planned, temporary);
      if trouble.AtManifestWrite? {
        if trouble.partial.Some? {
          files := files[temporary := File(Text(trouble.partial.value), newMode, self)];
        }
      } else {
        files := files[temporary := File(Text(text), newMode, self)];
        if !trouble.AtManifestReplace? {
          files := (files - {temporary})[manifest := files[temporary]];
          return Sanitized;
        }
      }
      if temporary in files {
        files := files - {temporary};
      }
      assert files == Done(Masked(files0, planned, |planned|, |planned|), planned, |planned|);
      UndoneDone(files0, planned, |planned|, |planned|);
      UndoItems(planned, completed, false);
      return RolledBack(completed);
    }
  }

  lemma ManifestFree(files: Files, items: seq<Item>, temporary: string)
    requires Good(files, items) && temporary !in files && forall i :: 0 <= i < |items| ==> items[i].raw != temporary
    ensures temporary !in Done(files, items, |items|)
  {
    forall i | 0 <= i < |items|
      ensures temporary != items[i].path && temporary != items[i].raw
    {
      assert Ready(files, items[i]);
    }
    DoneElsewhere(files, items, |items|, temporary);
  }

  // ----- the whole run

  /** Which of the outcomes a run has, and the tree it leaves. */
  method Sanitize(b: Backup, t: Tree, candidates: seq<string>, image: string, manifest: string, text: string,
                  dryRun: bool, trouble: Trouble) returns (r: Outcome)
    requires Sorting.Distinct(candidates)
    modifies b
    ensures var plan := PlanOf(old(b.files), t, candidates, image);
      if plan.Refused? then r == Refusing(plan.why) && b.files == old(b.files)
      else if dryRun then r == DryRun && b.files == old(b.files)
      else if trouble.AtManifestDirectory? then r == ManifestDirectoryFailed && b.files == old(b.files)
      else if TemporaryOf(manifest) in old(b.files) then r == ManifestBusy && b.files == old(b.files)
      else if Strikes(trouble, |plan.items|) then
        && r == RolledBack(MovedBy(trouble, |plan.items|))
        && Good(old(b.files), plan.items) && b.files == Masked(old(b.files), plan.items, 0, r.moved)
        && (b.files == old(b.files) <==> forall i :: 0 <= i < r.moved ==> old(b.files)[plan.items[i].path].mode < 512)
      else
        && r == Sanitized
        && b.files == Done(old(b.files), plan.items, |plan.items|)[manifest := File(Text(text), b.newMode, b.self)]
  {
    var plan := MakePlan(b.files, t, candidates, image);
    if plan.Refused? {
      return Refusing(plan.why);
    }
    if dryRun {
      return DryRun;
    }
    PlanIsGood(b.files, t, candidates, image);
    forall k | 0 <= k < |plan.items|
      ensures plan.items[k].raw != TemporaryOf(manifest)
    {
      var i := PlannedFrom(b.files, t, candidates, image, k);
      TakenIsReady(b.files, t, candidates[i], image);
      RawIsNoTemporary(t, candidates[i], manifest);
    }
    RestoredExactly(b.files, plan.items, MovedBy(trouble, |plan.items|));
    r := b.CarryOut(plan.items, manifest, text, trouble);
  }

  /** Any planned file with a special mode bit comes back without it when the run fails after
      it was moved. */
  lemma SpecialBitsAreLost(files: Files, t: Tree, candidates: seq<string>, image: string, trouble: Trouble, k: nat)
    requires Sorting.Distinct(candidates) && PlanOf(files, t, candidates, image).Planned?
    requires var items := PlanOf(files, t, candidates, image).items;
      k < MovedBy(trouble, |items|) && items[k].path in files && files[items[k].path].mode >= 512
    ensures var items := PlanOf(files, t, candidates, image).items;
      && Good(files, items)
      && var back, path := Masked(files, items, 0, MovedBy(trouble, |items|)), items[k].path;
      path in back && back[path] == files[path].(mode := files[path].mode % 512) && back != files
  {
    var items := PlanOf(files, t, candidates, image).items;
    PlanIsGood(files, t, candidates, image);
    assert Ready(files, items[k]);
    MaskedAt(files, items, 0, MovedBy(trouble, |items|), k);
  }

  /** There is such a file: a Compose file with one service and any special bits. Whatever
      fails after its move, it comes back without them. */
  lemma SpecialBitsInput(t: Tree, r: string, pad: string, deeper: string, given: string, image: string, mode: nat,
                         owner: Owner, trouble: Trouble)
    requires C.Blanks(pad) && pad != "" && C.Blanks(deeper) && deeper != "" && C.IsPlain(given) && given != image
    requires mode >= 512 && MovedBy(trouble, 1) == 1
    ensures var path, text := PathOf(t, r), Text(C.OneService(SERVICE, pad, deeper, given));
      var files := map[path := File(text, mode, owner)];
      var plan := PlanOf(files, t, [r], image);
      && plan.Planned? && |plan.items| == 1 && Good(files, plan.items)
      && Masked(files, plan.items, 0, MovedBy(trouble, 1)) == map[path := File(text, mode % 512, owner)]
  {
    var path, text := PathOf(t, r), C.OneService(SERVICE, pad, deeper, given);
    var files := map[path := File(Text(text), mode, owner)];
    C.OneServiceRewritten(pad, SERVICE, deeper, given, image);
    C.OneServiceApart(SERVICE, pad, deeper, given, image);
    OnlyFileTaken(files, t, r, text, C.OneService(SERVICE, pad, deeper, image), image);
    ChoiceAt(files, t, [r], image, 0);
    GatherOnly(Choices(files, t, [r], image));
    var items := PlanOf(files, t, [r], image).items;
    SpecialBitsAreLost(files, t, [r], image, trouble, 0);
    MaskedKeys(files, items, 0, 1);
  }

  lemma OnlyFileTaken(files: Files, t: Tree, r: string, text: string, rendered: string, image: string)
    requires files.Keys == {PathOf(t, r)} && files[PathOf(t, r)].content == Text(text)
    requires C.Rewritten(text, SERVICE, image) == C.Rendered(rendered) && rendered != text
    ensures Choose(files, t, r, image).Take? && Choose(files, t, r, image).item.path == PathOf(t, r)
  {
    OtherNames(t, r);
  }

  lemma OtherNames(t: Tree, r: string)
    ensures RawOf(t, r) != PathOf(t, r) && TemporaryOf(PathOf(t, r)) != PathOf(t, r)
  {
    assert |RawOf(t, r)| > |PathOf(t, r)| && |TemporaryOf(PathOf(t, r))| > |PathOf(t, r)|;
  }

  lemma GatherOnly(choices: seq<Choice>)
    requires |choices| == 1 && choices[0].Take?
    ensures Gather(choices) == Planned([choices[0].item])
  {
    assert choices[..0] == [] && [] + [choices[0].item] == [choices[0].item];
  }

  /** What a sanitised tree holds. Every rewritten file and every raw copy is as planned,
      unless the manifest was asked to stand in that very place; nothing else is touched
      and no temporary is left. */
  lemma SanitizedMeans(files: Files, items: seq<Item>, manifest: string, m: File, p: string)
    requires Good(files, items)
    ensures var after := Done(files, items, |items|)[manifest := m];
      && (forall i :: 0 <= i < |items| ==>
            && items[i].path in after
            && after[items[i].path]
               == (if items[i].path == manifest then m
                   else File(Text(items[i].rendered), items[i].mode, items[i].owner))
            && items[i].raw in after
            && after[items[i].raw] == (if items[i].raw == manifest then m else files[items[i].path].(mode := 0)))
      && (Clear(items, |items|, p) && p != manifest ==>
            (p in after <==> p in files) && (p in files ==> after[p] == files[p]))
  {
    forall i | 0 <= i < |items|
      ensures var done, item := Done(files, items, |items|), items[i];
        && item.path in done && done[item.path] == File(Text(item.rendered), item.mode, item.owner)
        && item.raw in done && done[item.raw] == files[item.path].(mode := 0)
    {
      DoneAt(files, items, |items|, i);
    }
    if Clear(items, |items|, p) {
      DoneElsewhere(files, items, |items|, p);
    }
  }

  /** An immutable image id: "sha256:" and 64 hexadecimal digits. */
  predicate IsImageId(image: string) {
    |image| == 71 && "sha256:" <= image && forall i :: 7 <= i < 71 ==> '0' <= image[i] <= '9' || 'a' <= image[i] <= 'f'
  }

  lemma ImageIdIsPlain(image: string)
    requires IsImageId(image)
    ensures C.NoSpace(image) && image != "" && image[0] != '#'
  {
    forall i | 0 <= i < |image|
      ensures !C.IsSpace(image[i])
    {
      if i < 7 {
        assert image[i] == "sha256:"[i];
      }
    }
  }

  /** The candidates: the files of the tree that the name and quarantine filter picks. */
  ghost predicate Lists(files: Files, t: Tree, pick: string -> bool, candidates: seq<string>) {
    && Sorting.Distinct(candidates)
    && (forall r :: pick(r) ==> !(t.quarantine + "/" <= r))
    && (forall r :: r in candidates <==> PathOf(t, r) in files && pick(r))
  }

  lemma SkippedAgain(files: Files, after: Files, t: Tree, r: string, image: string)
    requires Choose(files, t, r, image).Skip? && PathOf(t, r) in files && PathOf(t, r) in after
    requires after[PathOf(t, r)] == files[PathOf(t, r)]
    ensures Choose(after, t, r, image).Skip?
  {
  }

  lemma RewrittenSkipped(after: Files, t: Tree, r: string, image: string, original: string, rendered: string)
    requires IsImageId(image) && C.Rewritten(original, SERVICE, image) == C.Rendered(rendered)
    requires PathOf(t, r) in after && after[PathOf(t, r)].content == Text(rendered)
    ensures Choose(after, t, r, image).Skip?
  {
    ImageIdIsPlain(image);
    C.RewriteIdempotent(original, SERVICE, image);
  }

  /** A candidate of the sanitised tree that no item rewrote was there before, unchanged,
      and was skipped. */
  lemma UnplannedSkipped(files: Files, t: Tree, pick: string -> bool, candidates: seq<string>, image: string, r: string)
    requires Lists(files, t, pick, candidates) && PlanOf(files, t, candidates, image).Planned? && pick(r)
    requires var items := PlanOf(files, t, candidates, image).items;
      PathOf(t, r) in Done(files, items, |items|) && forall i :: 0 <= i < |items| ==> items[i].path != PathOf(t, r)
    ensures var items := PlanOf(files, t, candidates, image).items;
      Choose(Done(files, items, |items|), t, r, image).Skip?
  {
    var items := PlanOf(files, t, candidates, image).items;
    var path := PathOf(t, r);
    forall k | 0 <= k < |items|
      ensures items[k].raw != path
    {
      var i := PlannedFrom(files, t, candidates, image, k);
      TakenIsReady(files, t, candidates[i], image);
      if items[k].raw == path {
        RawIsQuarantined(t, r, candidates[i]);
      }
    }
    DoneElsewhere(files, items, |items|, path);
    assert r in candidates;
    var c :| 0 <= c < |candidates| && candidates[c] == r;
    ChoiceAt(files, t, candidates, image, c);
    GatheredAll(Choices(files, t, candidates, image), c);
    if Choose(files, t, r, image).Take? {
      TakenIsReady(files, t, r, image);
    }
    SkippedAgain(files, Done(files, items, |items|), t, r, image);
  }

  lemma PlannedSkipped(files: Files, t: Tree, candidates: seq<string>, image: string, r: string, k: nat)
    requires IsImageId(image) && Sorting.Distinct(candidates) && PlanOf(files, t, candidates, image).Planned?
    requires var items := PlanOf(files, t, candidates, image).items; k < |items| && items[k].path == PathOf(t, r)
    ensures var items := PlanOf(files, t, candidates, image).items;
      Choose(Done(files, items, |items|), t, r, image).Skip?
  {
    var items := PlanOf(files, t, candidates, image).items;
    PlanIsGood(files, t, candidates, image);
    DoneAt(files, items, |items|, k);
    var i := PlannedFrom(files, t, candidates, image, k);
    TakenIsReady(files, t, candidates[i], image);
    RewrittenSkipped(Done(files, items, |items|), t, r, image, items[k].original, items[k].rendered);
  }

  /** Every line of a manifest, as an indented JSON object is written, is blank or begins
      with a bracket or a quote. */
  ghost predicate IsManifest(text: string) {
    forall i :: 0 <= i < |C.SplitLines(text)| ==>
      var stripped := C.Strip(C.SplitLines(text)[i]);
      stripped == "" || stripped[0] in {'{', '}', '[', ']', '"'}
  }

  lemma ManifestLine(line: string)
    requires C.Strip(line) == "" || C.Strip(line)[0] in {'{', '}', '[', ']', '"'}
    ensures !C.LookAt(line).services
  {
    assert "services:"[0] == 's';
  }

  lemma ManifestSkipped(after: Files, t: Tree, r: string, image: string, text: string)
    requires IsManifest(text) && PathOf(t, r) in after && after[PathOf(t, r)].content == Text(text)
    ensures Choose(after, t, r, image).Skip?
  {
    forall i | 0 <= i < |C.SplitLines(text)|
      ensures !C.LookAt(C.SplitLines(text)[i]).services
    {
      ManifestLine(C.SplitLines(text)[i]);
    }
    C.NoServices(text, SERVICE, image);
  }

  /** Sanitising a sanitised tree plans nothing, wherever the manifest was written. */
  lemma PlanAgain(files: Files, t: Tree, pick: string -> bool, candidates: seq<string>, image: string,
                  manifest: string, m: File, again: seq<string>)
    requires IsImageId(image) && Lists(files, t, pick, candidates) && PlanOf(files, t, candidates, image).Planned?
    requires m.content.Text? && IsManifest(m.content.text)
    requires var items := PlanOf(files, t, candidates, image).items;
      Lists(Done(files, items, |items|)[manifest := m], t, pick, again)
    ensures var items := PlanOf(files, t, candidates, image).items;
      PlanOf(Done(files, items, |items|)[manifest := m], t, again, image) == Planned([])
  {
    var items := PlanOf(files, t, candidates, image).items;
    var done := Done(files, items, |items|);
    var after := done[manifest := m];
    forall j | 0 <= j < |again|
      ensures Choices(after, t, again, image)[j].Skip?
    {
      var r := again[j];
      assert r in again;
      if PathOf(t, r) == manifest {
        ManifestSkipped(after, t, r, image, m.content.text);
      } else {
        if k :| 0 <= k < |items| && items[k].path == PathOf(t, r) {
          PlannedSkipped(files, t, candidates, image, r, k);
        } else {
          UnplannedSkipped(files, t, pick, candidates, image, r);
        }
        SkippedAgain(done, after, t, r, image);
      }
      ChoiceAt(after, t, again, image, j);
    }
    GatheredNone(Choices(after, t, again, image));
  }
}
