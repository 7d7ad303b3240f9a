/** The dashboard's masked renderings of the card and account numbers and the avatar initial. */
module Dashboard {
  import opened Js

  /** The first four and the last four characters of a card number around a masked middle;
      an absent or empty number is masked entirely. */
  function FormatCardNumber(card: Option<string>): (r: string)
    ensures !Truthy(card) ==> r == "XXXX XXXX XXXX XXXX"
    ensures Truthy(card) ==>
              var c := card.value;
              r == (if |c| >= 4 then c[..4] else c) + " XXXX XXXX " + (if |c| >= 4 then c[|c| - 4..] else c)
  {
    if !Truthy(card) then "XXXX XXXX XXXX XXXX"
    else
      SlicePrefix(card.value, 4);
      SliceLast(card.value, 4);
      Slice(card.value, 0, 4) + " XXXX XXXX " + SliceFrom(card.value, -4)
  }

  /** "•••• " and the last four characters of the account number, or "•••• 0000" without one. */
  function FormatAccountNumber(account: Option<string>): (r: string)
    ensures !Truthy(account) ==> r == "•••• 0000"
    ensures Truthy(account) ==>
              var a := account.value;
              r == "•••• " + (if |a| >= 4 then a[|a| - 4..] else a)
  {
    if !Truthy(account) then "•••• 0000"
    else
      SliceLast(account.value, 4);
      "•••• " + SliceFrom(account.value, -4)
  }

  /** Where `slice` stops on a string of this length: at n, or at the end when it is shorter. */
  function Cut(c: string, n: nat): (k: nat)
    ensures k <= |c| && k <= n && (k == n || k == |c|)
  {
    if |c| < n then |c| else n
  }

  /** The number on the card face: characters [0,4), [4,8), [8,12) and [12,16) joined by single
      spaces, or four groups of bullets without a number. */
  function CardFace(card: Option<string>): (r: string)
    ensures !Truthy(card) ==> r == "•••• •••• •••• ••••"
    ensures Truthy(card) ==>
              var c := card.value;
              var a, b, d, m := Cut(c, 4), Cut(c, 8), Cut(c, 12), Cut(c, 16);
              r == c[..a] + " " + c[a..b] + " " + c[b..d] + " " + c[d..m]
  {
    if !Truthy(card) then "•••• •••• •••• ••••"
    else
      var c := card.value;
      Slice(c, 0, 4) + " " + Slice(c, 4, 8) + " " + Slice(c, 8, 12) + " " + Slice(c, 12, 16)
  }

  /** The four groups are consecutive pieces of the number: read without the separators they spell
      its first sixteen characters, and a sixteen-character number appears as four groups of four. */
  lemma CardFaceGroups(c: string)
    ensures var m := if |c| < 16 then |c| else 16;
            Slice(c, 0, 4) + Slice(c, 4, 8) + Slice(c, 8, 12) + Slice(c, 12, 16) == c[..m]
    ensures |c| == 16 ==> CardFace(Some(c)) == c[..4] + " " + c[4..8] + " " + c[8..12] + " " + c[12..]
  {
    var m := if |c| < 16 then |c| else 16;
    var a := if |c| < 4 then |c| else 4;
    var b := if |c| < 8 then |c| else 8;
    var d := if |c| < 12 then |c| else 12;
    assert Slice(c, 0, 4) == c[..a];
    assert Slice(c, 4, 8) == c[a..b];
    assert Slice(c, 8, 12) == c[b..d];
    assert Slice(c, 12, 16) == c[d..m];
    assert c[..a] + c[a..b] + c[b..d] + c[d..m] == c[..m];
  }

  /** The avatar letter: the name's first character upper-cased, or "U" when there is no name. */
  function AvatarInitial(fullName: Option<string>): (r: string)
    ensures |r| == 1
    ensures Truthy(fullName) ==> r == [UpperChar(fullName.value[0])]
    ensures !Truthy(fullName) ==> r == "U"
  {
    if Truthy(fullName) then ToUpper(fullName.value[..1]) else "U"
  }
}
