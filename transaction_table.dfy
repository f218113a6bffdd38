// The transactions table: which rows it lists, what each cell shows, and the
// edit and delete dialogs it opens.

module TransactionTable {

  import opened Strings
  import opened FinanceTypes
  import Lists

  /** The transactions of one type, in their order. */
  function OfType(ts: seq<Transaction>, ty: TransactionType): (r: seq<Transaction>)
    ensures forall t :: t in r <==> t in ts && t.ttype == ty
    ensures |r| <= |ts|
    ensures (forall i :: 0 <= i < |ts| ==> ts[i].ttype == ty) ==> r == ts
    decreases |ts|
  {
    if ts == [] then []
    else
      var rest := OfType(ts[1..], ty);
      assert forall t :: t in ts <==> t == ts[0] || t in ts[1..];
      assert ts == [ts[0]] + ts[1..];
      if ts[0].ttype == ty then [ts[0]] + rest else rest
  }

  /** Each row of the type is kept as often as it occurs, and no other. */
  lemma {:induction false} OfTypeCounts(ts: seq<Transaction>, ty: TransactionType, t: Transaction)
    ensures multiset(OfType(ts, ty))[t] == if t.ttype == ty then multiset(ts)[t] else 0
    decreases |ts|
  {
    if ts != [] {
      OfTypeCounts(ts[1..], ty, t);
      assert ts == [ts[0]] + ts[1..];
      assert multiset(ts) == multiset([ts[0]]) + multiset(ts[1..]);
    }
  }

  /** The rows kept stay in their order. */
  lemma {:induction false} OfTypeInOrder(ts: seq<Transaction>, ty: TransactionType)
    ensures Lists.IsSubsequence(OfType(ts, ty), ts)
    decreases |ts|
  {
    if ts != [] {
      OfTypeInOrder(ts[1..], ty);
      var rest := OfType(ts[1..], ty);
      if ts[0].ttype == ty {
        assert ([ts[0]] + rest)[1..] == rest;
      } else if rest != [] {
        assert rest[0] in rest;
      }
    }
  }

  /** The rows listed: those of the table's type when it has one, all of
    * them otherwise. */
  function Listed(transactions: Option<seq<Transaction>>, ty: Option<TransactionType>): Option<seq<Transaction>> {
    if ty.Some? && transactions.Some? then Some(OfType(transactions.value, ty.value)) else transactions
  }

  /** "Nenhuma transação encontrada" instead of the table. */
  predicate ShowsEmptyState(listed: Option<seq<Transaction>>) {
    listed.None? || listed.value == []
  }

  /** A typed table lists exactly the rows of its type, an untyped one all
    * rows; the empty state shows exactly when nothing is listed. */
  lemma ListedRows(transactions: Option<seq<Transaction>>, ty: Option<TransactionType>)
    ensures ty.None? ==> Listed(transactions, ty) == transactions
    ensures transactions.None? ==> ShowsEmptyState(Listed(transactions, ty))
    ensures transactions.Some? && ty.Some? ==>
              forall t :: t in Listed(transactions, ty).value <==> t in transactions.value && t.ttype == ty.value
    ensures transactions.Some? && ty.Some? ==>
              (ShowsEmptyState(Listed(transactions, ty)) <==> forall t :: t in transactions.value ==> t.ttype != ty.value)
  {
    if transactions.Some? && ty.Some? {
      var r := OfType(transactions.value, ty.value);
      if r != [] {
        assert r[0] in r;
      }
    }
  }

  // ---------------------------------------------------------------------
  // Cells

  function CategoryCell(t: Transaction): (r: string)
    ensures t.category.Some? && t.category.value.name != "" ==> r == t.category.value.name
    ensures t.category.None? || t.category.value.name == "" ==> r == "-"
  {
    if t.category.Some? && t.category.value.name != "" then t.category.value.name else "-"
  }

  function DescriptionCell(t: Transaction): (r: string)
    ensures Truthy(t.description) ==> r == t.description.value
    ensures !Truthy(t.description) ==> r == "-"
  {
    if Truthy(t.description) then t.description.value else "-"
  }

  function SourceCell(t: Transaction): (r: string)
    ensures t.source.Some? ==> r == SourceLabel(t.source.value)
    ensures t.source.None? ==> r == "-"
  {
    if t.source.Some? then SourceLabel(t.source.value) else "-"
  }

  /** "+" before revenue, "-" before an expense. */
  function AmountSign(t: Transaction): (r: string)
    ensures t.ttype == Receita ==> r == "+"
    ensures t.ttype == Despesa ==> r == "-"
  {
    if t.ttype == Receita then "+" else "-"
  }

  // ---------------------------------------------------------------------
  // Dialogs

  /** The table's dialog state, and the deletions it has asked for. */
  class TableState {
    var editTransaction: Option<Transaction>
    var deleteId: Option<string>
    var deleted: seq<string>

    constructor ()
      ensures editTransaction.None? && deleteId.None? && deleted == []
    {
      editTransaction := None;
      deleteId := None;
      deleted := [];
    }

    /** "Editar" opens the form on the row. */
    method Edit(t: Transaction)
      modifies this
      ensures editTransaction == Some(t) && deleteId == old(deleteId) && deleted == old(deleted)
    {
      editTransaction := Some(t);
    }

    /** Closing the form forgets the row; opening it changes nothing. */
    method FormOpenChange(open: bool)
      modifies this
      ensures editTransaction == (if open then old(editTransaction) else None)
      ensures deleteId == old(deleteId) && deleted == old(deleted)
    {
      if !open {
        editTransaction := None;
      }
    }

    /** "Excluir" opens the confirmation for the row. */
    method AskDelete(id: string)
      modifies this
      ensures deleteId == Some(id) && editTransaction == old(editTransaction) && deleted == old(deleted)
    {
      deleteId := Some(id);
    }

    /** Closing the confirmation forgets the row. */
    method DeleteDialogChange(open: bool)
      modifies this
      ensures deleteId == (if open then old(deleteId) else None)
      ensures editTransaction == old(editTransaction) && deleted == old(deleted)
    {
      if !open {
        deleteId := None;
      }
    }

    /** `handleDelete`: with a row chosen, its deletion is asked for, and the
      * choice is cleared once the deletion succeeds; a failed deletion
      * leaves it. Without a row nothing happens. */
    method HandleDelete(deleteOk: bool)
      modifies this
      ensures Truthy(old(deleteId)) ==> deleted == old(deleted) + [old(deleteId).value]
      ensures Truthy(old(deleteId)) ==> deleteId == if deleteOk then None else old(deleteId)
      ensures !Truthy(old(deleteId)) ==> deleted == old(deleted) && deleteId == old(deleteId)
      ensures editTransaction == old(editTransaction)
    {
      if Truthy(deleteId) {
        deleted := deleted + [deleteId.value];
        if deleteOk {
          deleteId := None;
        }
      }
    }
  }
}
