/**
  Permission references as a group's grant and revoke operations accept them,
  their resolution against the permission store, and the semantics of a batch
  of grants or revokes processed one reference at a time.
 */
module Permissions {
  import opened Wrappers
  import Pivot

  type PermissionId = nat

  /** A permission record; its key is what the group's pivot rows hold. */
  datatype Permission = Permission(id: PermissionId, handle: string)

  /** What a caller may pass for one permission: an integer key, a string term, or the record itself. */
  datatype PermissionRef = ById(id: int) | ByHandle(term: string) | ByValue(permission: Permission)

  /**
    How the references reach a batch operation: as one list (an array or a
    collection), or spread over the call's arguments, in which case every
    argument of the call is one reference.
   */
  datatype Argument = Listed(items: seq<PermissionRef>) | Spread(first: PermissionRef, rest: seq<PermissionRef>)

  /** The references a batch operation iterates over, in order. */
  function References(arg: Argument): (refs: seq<PermissionRef>)
    ensures arg.Listed? ==> refs == arg.items
    ensures arg.Spread? ==> |refs| == |arg.rest| + 1 && refs[0] == arg.first && refs[1..] == arg.rest
  {
    match arg
    case Listed(items) => items
    case Spread(first, rest) => [first] + rest
  }

  /**
    The permission store's two lookups, whose internals are not part of this
    model: `search` looks a permission up by a string term, `find` by its
    integer key. Either may find nothing.
   */
  datatype Catalog = Catalog(search: string -> Option<Permission>, find: int -> Option<Permission>)

  /**
    Resolves one reference: a string through `search`, an integer through
    `find`, a record passed through unchanged. `None` stands for the lookup
    finding nothing, which the source cannot return as a permission.
   */
  function Resolve(catalog: Catalog, ref: PermissionRef): (r: Option<Permission>)
    ensures ref.ByValue? ==> r == Some(ref.permission)
    ensures r.None? ==> !ref.ByValue?
  {
    match ref
    case ByHandle(term) => catalog.search(term)
    case ById(id) => catalog.find(id)
    case ByValue(p) => Some(p)
  }

  predicate Resolves(catalog: Catalog, ref: PermissionRef)
  {
    Resolve(catalog, ref).Some?
  }

  /** Granting attaches a row for the permission to the group; revoking detaches every row for it. */
  datatype Mode = Grant | Revoke

  function Apply(mode: Mode, rows: seq<PermissionId>, p: PermissionId): (r: seq<PermissionId>)
    ensures mode.Grant? ==> multiset(r) == multiset(rows) + multiset{p}
    ensures mode.Revoke? ==> p !in r && multiset(r) == multiset(rows)[p := 0]
  {
    match mode
    case Grant => Pivot.Attach(rows, p)
    case Revoke => Pivot.Detach(rows, p)
  }

  /**
    How a batch ends: every reference was processed, or the reference at
    index `at` did not resolve and the batch stopped there.
   */
  datatype Outcome = Completed | Aborted(at: nat)

  datatype Batch = Batch(rows: seq<PermissionId>, outcome: Outcome)
  {
    /** The number of references processed, given that there were `n`. */
    function Processed(n: nat): nat
    {
      match outcome
      case Completed => n
      case Aborted(k) => k
    }
  }

  /**
    Processes the references from index `i` on, in list order: each one is
    resolved and applied to the rows before the next is looked at. The first
    reference that does not resolve stops the batch; the rows keep whatever
    the earlier references did.
   */
  function ApplyFrom(catalog: Catalog, mode: Mode, rows: seq<PermissionId>, refs: seq<PermissionRef>, i: nat): (b: Batch)
    requires i <= |refs|
    ensures b.outcome.Completed? <==> forall j :: i <= j < |refs| ==> Resolves(catalog, refs[j])
    ensures b.outcome.Aborted? ==> i <= b.outcome.at < |refs| && !Resolves(catalog, refs[b.outcome.at])
    ensures b.outcome.Aborted? ==> forall j :: i <= j < b.outcome.at ==> Resolves(catalog, refs[j])
    decreases |refs| - i
  {
    if i == |refs| then Batch(rows, Completed)
    else
      match Resolve(catalog, refs[i])
      case None => Batch(rows, Aborted(i))
      case Some(p) => ApplyFrom(catalog, mode, Apply(mode, rows, p.id), refs, i + 1)
  }

  /** The keys of a list of references that all resolve, in list order. */
  function ResolvedIds(catalog: Catalog, refs: seq<PermissionRef>): (ids: seq<PermissionId>)
    requires forall j :: 0 <= j < |refs| ==> Resolves(catalog, refs[j])
    ensures |ids| == |refs|
    ensures forall j :: 0 <= j < |refs| ==> Resolves(catalog, refs[j]) && ids[j] == Resolve(catalog, refs[j]).value.id
    decreases |refs|
  {
    if |refs| == 0 then []
    else
      assert Resolves(catalog, refs[0]);
      [Resolve(catalog, refs[0]).value.id] + ResolvedIds(catalog, refs[1..])
  }

  /** The keys of `refs[i..k]` are the key of `refs[i]` followed by those of `refs[i + 1..k]`. */
  lemma ResolvedIdsStep(catalog: Catalog, refs: seq<PermissionRef>, i: nat, k: nat)
    requires i < k <= |refs|
    requires forall j :: i <= j < k ==> Resolves(catalog, refs[j])
    ensures forall j :: 0 <= j < |refs[i..k]| ==> Resolves(catalog, refs[i..k][j])
    ensures var rest := refs[i + 1..k]; forall j :: 0 <= j < |rest| ==> Resolves(catalog, rest[j])
    ensures ResolvedIds(catalog, refs[i..k]) == [Resolve(catalog, refs[i]).value.id] + ResolvedIds(catalog, refs[i + 1..k])
  {
    assert refs[i..k][0] == refs[i] && refs[i..k][1..] == refs[i + 1..k];
  }

  /**
    A grant batch attaches, in list order, one row for each reference it
    processed, and nothing is rolled back when it stops early.
   */
  lemma {:induction false} GrantBatch(catalog: Catalog, rows: seq<PermissionId>, refs: seq<PermissionRef>, i: nat)
    requires i <= |refs|
    ensures var b := ApplyFrom(catalog, Grant, rows, refs, i);
      var k := b.Processed(|refs|);
      && i <= k <= |refs|
      && (forall j :: 0 <= j < |refs[i..k]| ==> Resolves(catalog, refs[i..k][j]))
      && b.rows == rows + ResolvedIds(catalog, refs[i..k])
    decreases |refs| - i
  {
    var b := ApplyFrom(catalog, Grant, rows, refs, i);
    var k := b.Processed(|refs|);
    if i == |refs| || !Resolves(catalog, refs[i]) {
      assert refs[i..k] == [];
    } else {
      var p := Resolve(catalog, refs[i]).value;
      GrantBatch(catalog, rows + [p.id], refs, i + 1);
      ResolvedIdsStep(catalog, refs, i, k);
      assert b.rows == (rows + [p.id]) + ResolvedIds(catalog, refs[i + 1..k]);
    }
  }

  /**
    A revoke batch leaves no row for any permission it processed, and keeps
    every row of every other permission.
   */
  lemma {:induction false} RevokeBatch(catalog: Catalog, rows: seq<PermissionId>, refs: seq<PermissionRef>, i: nat)
    requires i <= |refs|
    ensures var b := ApplyFrom(catalog, Revoke, rows, refs, i);
      var k := b.Processed(|refs|);
      && i <= k <= |refs|
      && (forall j :: 0 <= j < |refs[i..k]| ==> Resolves(catalog, refs[i..k][j]))
      && (forall q :: q in ResolvedIds(catalog, refs[i..k]) ==> q !in b.rows)
      && (forall q :: q !in ResolvedIds(catalog, refs[i..k]) ==> multiset(b.rows)[q] == multiset(rows)[q])
    decreases |refs| - i
  {
    var b := ApplyFrom(catalog, Revoke, rows, refs, i);
    var k := b.Processed(|refs|);
    if i == |refs| || !Resolves(catalog, refs[i]) {
      assert refs[i..k] == [];
    } else {
      var p := Resolve(catalog, refs[i]).value;
      var detached := Pivot.Detach(rows, p.id);
      RevokeBatch(catalog, detached, refs, i + 1);
      assert refs[i..k][0] == refs[i] && refs[i..k][1..] == refs[i + 1..k];
      var ids := ResolvedIds(catalog, refs[i..k]);
      assert ids == [p.id] + ResolvedIds(catalog, refs[i + 1..k]);
    }
  }
}
