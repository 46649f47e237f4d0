/** Brand operation leases on disk, and what each operation may leave there. */
module GraphifyLeaseRules {
  import opened Prelude

  type OperationId = string

  datatype Selection = Selection(targetId: string, folderId: string, accountId: string)

  /**
   A lease is a directory under the private root, moved between names by renames: a draft
   becomes the active lease of its selection, an acknowledgement claims it, and the claim
   becomes the acknowledged record. The hash of a selection in a name stands for the
   selection itself.
   */
  datatype Name =
    | Active(sel: Selection)
    | Claim(sel: Selection, op: OperationId)
    | Acked(sel: Selection)
    | Draft(sel: Selection, op: OperationId, nonce: string)

  /** A lease directory while it is empty, while its record is being written, and once it is whole. */
  datatype Content = Empty | Torn | Lease(sel: Selection, op: OperationId)

  type Root = map<Name, Content>

  datatype Error = Invalid | Uncertain(op: OperationId) | Io

  datatype Result<+T> = Ok(value: T) | Fail(error: Error)

  predicate AccountChar(c: char) {
    'a' <= c <= 'z' || '0' <= c <= '9'
  }

  predicate ValidSelection(sel: Selection) {
    && 2 <= |sel.accountId| <= 64 && AccountChar(sel.accountId[0])
    && (forall c :: c in sel.accountId ==> AccountChar(c) || c == '-')
    && sel.targetId == "brand:" + sel.accountId
    && 1 <= |sel.folderId| <= 160
    && '\0' !in sel.folderId && '\r' !in sel.folderId && '\n' !in sel.folderId
  }

  predicate ValidOperation(op: OperationId) {
    |op| == 32 && forall c :: c in op ==> '0' <= c <= '9' || 'a' <= c <= 'f'
  }

  function ReadLease(root: Root, name: Name, sel: Selection): Result<Option<OperationId>> {
    if name !in root then Ok(None)
    else if root[name].Lease? && root[name].sel == sel then Ok(Some(root[name].op))
    else Fail(Invalid)
  }

  // ------------------------------------------------------------------- what is held

  /** The names under which a lease is unacknowledged. */
  predicate IsLease(name: Name) {
    name.Active? || name.Claim?
  }

  /** The selection has an unacknowledged lease for this operation, active or claimed. */
  predicate Holds(root: Root, sel: Selection, op: OperationId) {
    || (Active(sel) in root && root[Active(sel)] == Lease(sel, op))
    || Claim(sel, op) in root
  }

  predicate HasAcked(root: Root, sel: Selection, op: OperationId) {
    Acked(sel) in root && root[Acked(sel)] == Lease(sel, op)
  }

  predicate GoodEntry(root: Root, name: Name)
    requires name in root
  {
    match name
    case Active(sel) => root[name].Lease? && root[name].sel == sel
    case Claim(sel, op) => root[name] == Lease(sel, op) && Active(sel) !in root
    case Acked(sel) => root[name].Lease? && root[name].sel == sel && !Holds(root, sel, root[name].op)
    case Draft(sel, op, _) => root[name] in {Empty, Torn, Lease(sel, op)}
  }

  /** Every record is whole under its final name, and a selection is never both active and claimed. */
  ghost predicate Inv(root: Root) {
    && (forall name :: name in root ==> GoodEntry(root, name))
    && (forall sel, a, b :: Claim(sel, a) in root && Claim(sel, b) in root ==> a == b)
  }

  lemma OneHeld(root: Root, sel: Selection, a: OperationId, b: OperationId)
    requires Inv(root) && Holds(root, sel, a) && Holds(root, sel, b)
    ensures a == b
  {
    if Claim(sel, a) in root { assert GoodEntry(root, Claim(sel, a)); }
    if Claim(sel, b) in root { assert GoodEntry(root, Claim(sel, b)); }
  }

  ghost predicate SameHeld(a: Root, b: Root, sel: Selection) {
    forall op :: Holds(a, sel, op) <==> Holds(b, sel, op)
  }

  ghost predicate SameAcked(a: Root, b: Root, sel: Selection) {
    forall op :: HasAcked(a, sel, op) <==> HasAcked(b, sel, op)
  }

  /** Nothing a caller can observe has changed. */
  ghost predicate SameView(a: Root, b: Root) {
    forall sel :: SameHeld(a, b, sel) && SameAcked(a, b, sel)
  }

  ghost predicate OthersSame(a: Root, b: Root, sel: Selection) {
    forall other :: other != sel ==> SameHeld(a, b, other) && SameAcked(a, b, other)
  }

  ghost predicate NothingHeld(root: Root, sel: Selection) {
    forall op :: !Holds(root, sel, op)
  }

  lemma SameViewTrans(a: Root, b: Root, c: Root)
    requires SameView(a, b) && SameView(b, c)
    ensures SameView(a, c)
  {
    forall sel ensures SameHeld(a, c, sel) && SameAcked(a, c, sel) {
      assert SameHeld(a, b, sel) && SameAcked(a, b, sel) && SameHeld(b, c, sel) && SameAcked(b, c, sel);
    }
  }

  lemma NothingHeldStays(a: Root, b: Root, sel: Selection)
    requires SameView(a, b)
    ensures NothingHeld(a, sel) <==> NothingHeld(b, sel)
    ensures forall op :: (Holds(a, sel, op) <==> Holds(b, sel, op)) && (HasAcked(a, sel, op) <==> HasAcked(b, sel, op))
  {
    assert SameHeld(a, b, sel) && SameAcked(a, b, sel);
  }

  ghost predicate Extends(before: seq<Root>, after: seq<Root>) {
    |before| <= |after| && forall i :: 0 <= i < |before| ==> after[i] == before[i]
  }

  ghost predicate NothingAcked(root: Root, sel: Selection) {
    forall op :: !HasAcked(root, sel, op)
  }

  // ------------------------------------------------------------ what a call may do

  /** A state that reserving may leave behind, whether it returns, throws or dies on the way. */
  ghost predicate ReserveVisits(before: Root, sel: Selection, op: OperationId, s: Root) {
    && Inv(s)
    && (SameView(before, s)
        || (NothingHeld(before, sel) && Holds(s, sel, op) && OthersSame(before, s, sel) && SameAcked(before, s, sel)))
  }

  /** Steps that change nothing seen may come first. */
  lemma ReserveVisitsLater(a: Root, b: Root, sel: Selection, op: OperationId, s: Root)
    requires SameView(a, b) && ReserveVisits(b, sel, op, s)
    ensures ReserveVisits(a, sel, op, s)
  {
    if SameView(b, s) {
      SameViewTrans(a, b, s);
    } else {
      NothingHeldStays(a, b, sel);
      forall other | other != sel ensures SameHeld(a, s, other) && SameAcked(a, s, other) {
        assert SameHeld(a, b, other) && SameAcked(a, b, other) && SameHeld(b, s, other) && SameAcked(b, s, other);
      }
    }
  }

  /** What a reserve that returns has done. */
  ghost predicate ReserveReturns(before: Root, sel: Selection, op: OperationId, after: Root, r: Result<OperationId>) {
    && ReserveVisits(before, sel, op, after)
    && match r
       case Ok(id) => Holds(after, sel, id) && (if NothingHeld(before, sel) then id == op else Holds(before, sel, id))
       case Fail(_) => SameView(before, after)
  }

  /** A state that acknowledging may leave behind. The lease goes only with a completed operation. */
  ghost predicate AckVisits(before: Root, sel: Selection, op: OperationId, completed: bool, s: Root) {
    && Inv(s) && OthersSame(before, s, sel)
    && if SameHeld(before, s, sel)
       then SameAcked(before, s, sel) || (completed && Holds(before, sel, op) && NothingAcked(s, sel))
       else completed && Holds(before, sel, op) && NothingHeld(s, sel) && HasAcked(s, sel, op)
  }

  lemma AckVisitsLater(a: Root, b: Root, sel: Selection, op: OperationId, completed: bool, s: Root)
    requires SameView(a, b) && AckVisits(b, sel, op, completed, s)
    ensures AckVisits(a, sel, op, completed, s)
  {
    NothingHeldStays(a, b, sel);
    forall other | other != sel ensures SameHeld(a, s, other) && SameAcked(a, s, other) {
      assert SameHeld(a, b, other) && SameAcked(a, b, other) && SameHeld(b, s, other) && SameAcked(b, s, other);
    }
    assert SameHeld(a, s, sel) <==> SameHeld(b, s, sel);
    assert SameAcked(a, s, sel) <==> SameAcked(b, s, sel);
  }

  /** Steps that change nothing seen may also come last. */
  lemma AckVisitsThen(a: Root, sel: Selection, op: OperationId, completed: bool, s: Root, t: Root)
    requires AckVisits(a, sel, op, completed, s) && SameHeld(a, s, sel) && Inv(t) && SameView(s, t)
    ensures AckVisits(a, sel, op, completed, t) && SameHeld(a, t, sel)
  {
    NothingHeldStays(s, t, sel);
    forall other | other != sel ensures SameHeld(a, t, other) && SameAcked(a, t, other) {
      assert SameHeld(a, s, other) && SameAcked(a, s, other) && SameHeld(s, t, other) && SameAcked(s, t, other);
    }
  }

  ghost predicate AckReturns(before: Root, sel: Selection, op: OperationId, completed: bool, after: Root, r: Result<bool>) {
    && AckVisits(before, sel, op, completed, after)
    && match r
       case Ok(done) =>
         if done then HasAcked(after, sel, op) && !Holds(after, sel, op) && (HasAcked(before, sel, op) || completed)
         else SameView(before, after) && !HasAcked(after, sel, op)
              && (Holds(before, sel, op) ==> !completed)
       case Fail(_) => SameHeld(before, after, sel)
  }

  // ------------------------------------------------------------- completed operations

  datatype Projection = Projection(accountId: string, operationId: OperationId, pending: bool)

  /** What a committed run says about the operation it was built for. */
  datatype Run = Run(target: Option<string>, folder: Option<string>, projection: Option<Projection>, intact: bool)

  predicate BuiltFor(run: Run, sel: Selection, op: OperationId) {
    && run.projection.Some?
    && (run.target.Some? ==> run.target.value == sel.targetId)
    && (run.folder.Some? ==> run.folder.value == sel.folderId)
    && run.projection.value.accountId == sel.accountId && run.projection.value.operationId == op
  }

  /** The operation has a completed run and no pending one, and its completed runs are intact. */
  predicate Completed(runs: seq<Run>, sel: Selection, op: OperationId) {
    && (exists i :: 0 <= i < |runs| && BuiltFor(runs[i], sel, op))
    && (forall i :: 0 <= i < |runs| && BuiltFor(runs[i], sel, op) ==> !runs[i].projection.value.pending && runs[i].intact)
  }

  // ---------------------------------------------------------- the renames one by one

  /** A draft comes and goes unseen. */
  lemma DraftStep(root: Root, draft: Name, content: Content)
    requires Inv(root) && draft.Draft? && content in {Empty, Torn, Lease(draft.sel, draft.op)}
    ensures Inv(root[draft := content]) && SameView(root, root[draft := content])
    ensures Inv(root - {draft}) && SameView(root, root - {draft})
  {
    var put, gone := root[draft := content], root - {draft};
    forall name | name in put ensures GoodEntry(put, name) {
      assert name != draft ==> GoodEntry(root, name);
    }
    forall name | name in gone ensures GoodEntry(gone, name) {
      assert GoodEntry(root, name);
    }
  }

  lemma PublishStep(root: Root, sel: Selection, op: OperationId, nonce: string)
    requires Inv(root) && NothingHeld(root, sel) && Active(sel) !in root && !HasAcked(root, sel, op)
    requires Draft(sel, op, nonce) in root && root[Draft(sel, op, nonce)] == Lease(sel, op)
    ensures ReserveVisits(root, sel, op, root[Active(sel) := Lease(sel, op)] - {Draft(sel, op, nonce)})
  {
    var after := root[Active(sel) := Lease(sel, op)] - {Draft(sel, op, nonce)};
    assert forall a :: Claim(sel, a) in root ==> Holds(root, sel, a);
    forall name | name in after ensures GoodEntry(after, name) {
      assert name != Active(sel) ==> GoodEntry(root, name);
    }
    assert Holds(after, sel, op);
  }

  /** Moving a lease between its active and its claimed name changes nothing a caller sees. */
  lemma ClaimStep(root: Root, sel: Selection, op: OperationId)
    requires Inv(root) && Active(sel) in root && root[Active(sel)] == Lease(sel, op)
    ensures var after := root[Claim(sel, op) := Lease(sel, op)] - {Active(sel)};
      Inv(after) && SameView(root, after)
  {
    var after := root[Claim(sel, op) := Lease(sel, op)] - {Active(sel)};
    forall name | name in after ensures GoodEntry(after, name) {
      assert name != Claim(sel, op) ==> GoodEntry(root, name);
    }
    assert forall a :: Claim(sel, a) in root ==> GoodEntry(root, Claim(sel, a));
  }

  lemma UnclaimStep(root: Root, sel: Selection, op: OperationId)
    requires Inv(root) && Claim(sel, op) in root
    ensures root[Claim(sel, op)] == Lease(sel, op) && Active(sel) !in root
    ensures var after := root[Active(sel) := Lease(sel, op)] - {Claim(sel, op)};
      Inv(after) && SameView(root, after)
  {
    assert GoodEntry(root, Claim(sel, op));
    var after := root[Active(sel) := Lease(sel, op)] - {Claim(sel, op)};
    forall name | name in after ensures GoodEntry(after, name) {
      assert name != Active(sel) ==> GoodEntry(root, name);
    }
  }

  /** Rotating out the previous acknowledged record. */
  lemma ForgetAckedStep(root: Root, sel: Selection)
    requires Inv(root)
    ensures var after := root - {Acked(sel)};
      Inv(after) && OthersSame(root, after, sel) && SameHeld(root, after, sel)
  {
    var after := root - {Acked(sel)};
    forall name | name in after ensures GoodEntry(after, name) {
      assert GoodEntry(root, name);
    }
  }

  lemma AckStep(root: Root, sel: Selection, op: OperationId)
    requires Inv(root) && Claim(sel, op) in root && Acked(sel) !in root
    ensures var after := root[Acked(sel) := Lease(sel, op)] - {Claim(sel, op)};
      Inv(after) && OthersSame(root, after, sel) && NothingHeld(after, sel) && HasAcked(after, sel, op)
  {
    assert GoodEntry(root, Claim(sel, op));
    var after := root[Acked(sel) := Lease(sel, op)] - {Claim(sel, op)};
    forall name | name in after ensures GoodEntry(after, name) {
      assert name != Acked(sel) ==> GoodEntry(root, name);
    }
  }
}
