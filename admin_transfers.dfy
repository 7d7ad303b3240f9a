/** The admin list of pending transfers: the label shown for a transaction's category.
    Its reject dialog and row toggle are AdminCommon.ReviewList. */
module AdminTransfers {
  import opened Js

  /** `category.replace(/_/g, " ").toUpperCase()` */
  function CategoryLabel(category: string): (r: string)
    ensures |r| == |category|
    ensures forall i :: 0 <= i < |category| ==> r[i] == if category[i] == '_' then ' ' else UpperChar(category[i])
    ensures forall i :: 0 <= i < |r| ==> r[i] != '_' && !('a' <= r[i] <= 'z')
  {
    ToUpper(ReplaceAll(category, '_', ' '))
  }

  /** A label is already in label form: relabelling it changes nothing. */
  lemma CategoryLabelIdempotent(category: string)
    ensures CategoryLabel(CategoryLabel(category)) == CategoryLabel(category)
  {
  }
}
