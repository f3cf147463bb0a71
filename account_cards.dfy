/**
 * AccountCardAdapter.kt: the DiffUtil comparisons of the account card list.
 */
module AccountCards {
  import opened Entities

  /** `areItemsTheSame`: the same account row. */
  predicate AreItemsTheSame(oldItem: Account, newItem: Account) {
    oldItem.id == newItem.id
  }

  /** `areContentsTheSame`: data-class equality over id, name and balance. */
  predicate AreContentsTheSame(oldItem: Account, newItem: Account) {
    oldItem == newItem
  }

  /**
   * Equal contents means every displayed field agrees and implies the same
   * row; row identity is an equivalence.
   */
  lemma AccountDiffLaws(a: Account, b: Account, c: Account)
    ensures AreContentsTheSame(a, b) <==> a.id == b.id && a.name == b.name && a.balance == b.balance
    ensures AreContentsTheSame(a, b) ==> AreItemsTheSame(a, b)
    ensures AreItemsTheSame(a, a)
    ensures AreItemsTheSame(a, b) == AreItemsTheSame(b, a)
    ensures AreItemsTheSame(a, b) && AreItemsTheSame(b, c) ==> AreItemsTheSame(a, c)
    ensures a.balance != b.balance ==> !AreContentsTheSame(a, b)
  {
  }
}
