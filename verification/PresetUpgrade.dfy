/** A preset upgrade of a user's document: merge, then edit the document to read as the result. */
module PresetUpgrade {
  import opened Options
  import opened PresetTree
  import M = PresetMerge
  import PresetAgain
  import PresetMerger
  import S = DocumentSync
  import A = DocumentAliases
  import W = DocumentWriting
  import DocumentEditor

  /** The tree the upgrade asks for. */
  function Wanted(base: Value, user: Value, preset: Value): Value {
    ValueOf(M.Merge(Present(base), Present(user), Present(preset)))
  }

  /** The upgrade fails, and the user's text stays, exactly when the edit would have to write through an
      alias to a mapping, or the edited document has an alias that no node it names comes before. */
  method Upgrade(document: DocumentEditor.Document, base: Value, preset: Value, conflicts: PresetMerger.ConflictLog)
    returns (ok: bool, ghost added: seq<PresetMerger.Entry>)
    modifies document, conflicts
    ensures var root := old(document.root); var user := S.Content(root); var wanted := Wanted(base, user, preset); (
      && (ok <==> S.Writable(root, user, wanted) && W.WrittenAfter(root, user, wanted, {}).Some?)
      && (ok ==> document.root == DocumentEditor.Edited(root, [], root, user, wanted))
      && (ok ==> S.Content(document.root) == wanted)
      && (ok && W.Listed(root) ==> ReadsAsWanted(root, document.root, wanted)))
    ensures conflicts.entries == old(conflicts.entries) + added
    ensures PresetMerger.Exact(added, [], Present(base), Present(S.Content(old(document.root))), Present(preset))
  {
    var user := S.Content(document.root);
    ghost var root := document.root;
    var merged;
    merged, added := PresetMerger.MergeValue(Present(base), Present(user), Present(preset), [], conflicts);
    S.SyncReads(document.root, ValueOf(merged));
    ok := DocumentEditor.SyncDocument(document, [], user, ValueOf(merged), document.root);
    if ok {
      EditedWritten(root, user, ValueOf(merged));
      ok := W.Written(document.root, {}).Some?;
      if ok && W.Listed(root) { UpgradeReads(root, ValueOf(merged)); }
    }
  }

  /** With aliases followed, the document reads as wanted if and only if what is wanted of every node
      that an alias left in it names is what the alias read as. */
  ghost predicate ReadsAsWanted(before: S.Node, root: S.Node, wanted: Value) {
    forall readings: A.Readings | A.Consistent(root, readings) ::
      A.Read(root, readings) == wanted <==> A.AnchorsWanted(before, wanted)
  }

  lemma EditedWritten(root: S.Node, user: Value, wanted: Value)
    requires S.Content(root) == user
    ensures W.Written(DocumentEditor.Edited(root, [], root, user, wanted), {}).Some? <==>
            W.WrittenAfter(root, user, wanted, {}).Some?
  {
    W.WrittenExact(root, user, wanted, {});
  }

  lemma UpgradeReads(root: S.Node, wanted: Value)
    requires W.WrittenAfter(root, S.Content(root), wanted, {}).Some? && W.Listed(root)
    ensures ReadsAsWanted(root, DocumentEditor.Edited(root, [], root, S.Content(root), wanted), wanted)
  {
    var user := S.Content(root);
    var r := DocumentEditor.Edited(root, [], root, user, wanted);
    forall readings: A.Readings | A.Consistent(r, readings)
      ensures A.Read(r, readings) == wanted <==> A.AnchorsWanted(root, wanted) {
      if user != wanted && S.Scalar(user) && S.Scalar(wanted) {
        NoAliasStays(root, wanted);
      } else {
        W.WrittenReadsExact(root, wanted, readings);
      }
    }
  }

  /** A document that is one scalar has nothing an alias could name. */
  lemma NoAliasStays(root: S.Node, wanted: Value)
    requires S.Content(root) != wanted && S.Scalar(S.Content(root)) && S.Scalar(wanted)
    ensures A.AnchorsWanted(root, wanted)
  {
    forall a | A.AliasStays(root, wanted, a) ensures false {
    }
  }

  lemma RemergeWanted(base: Value, user: Value, preset: Value)
    ensures Wanted(base, Wanted(base, user, preset), preset) == Wanted(base, user, preset) <==>
            PresetAgain.Steady(Present(base), Present(user), Present(preset))
  {
    var b, u, p := Present(base), Present(user), Present(preset);
    var m := M.Merge(b, u, p);
    assert m == Present(ValueOf(m));
    assert M.Merge(b, m, p) == Present(ValueOf(M.Merge(b, m, p)));
    PresetAgain.RemergeExact(b, u, p);
  }

  /** Upgrading again a document that reads as an upgrade's result leaves every node of it as it is
      exactly when the first merge was steady. */
  lemma UpgradeTwice(upgraded: S.Node, base: Value, user: Value, preset: Value, first: Value)
    requires first == Wanted(base, user, preset) && S.Content(upgraded) == first
    ensures S.Sync(upgraded, first, Wanted(base, first, preset)) == upgraded <==>
            PresetAgain.Steady(Present(base), Present(user), Present(preset))
  {
    RemergeWanted(base, user, preset);
    S.SyncStays(upgraded, Wanted(base, first, preset));
  }
}
