/** Account names as characters, and what newaccount's bit tests mean for them. */
module AuctionNames {
  import opened Common
  import opened Powers
  import opened AuctionSpec
  import opened AuctionProofs

  // Twelve five-bit characters from left to right, 0 being the dot, and a four-bit thirteenth.
  ghost predicate IsName(letters: seq<nat>, thirteenth: nat) {
    |letters| == 12 && (forall i :: 0 <= i < 12 ==> letters[i] < 32) && thirteenth < 16
  }

  function Packed(letters: seq<nat>): nat {
    if letters == [] then 0 else Packed(letters[..|letters| - 1]) * 32 + letters[|letters| - 1]
  }

  function NameOf(letters: seq<nat>, thirteenth: nat): Name {
    Packed(letters) * 16 + thirteenth
  }

  lemma {:induction false} ShiftedPacked(letters: seq<nat>, thirteenth: nat, i: nat)
    requires thirteenth < 16 && i <= |letters| && forall j :: 0 <= j < |letters| ==> letters[j] < 32
    ensures Shifted(NameOf(letters, thirteenth), i) == Packed(letters[..|letters| - i])
  {
    var value, n := NameOf(letters, thirteenth), |letters| - i;
    if i == 0 {
      assert letters[..n] == letters;
      DivUnique(value, 16, Packed(letters), thirteenth);
    } else {
      ShiftedPacked(letters, thirteenth, i - 1);
      assert letters[..n + 1][..n] == letters[..n];
      DivUnique(Packed(letters[..n + 1]), 32, Packed(letters[..n]), letters[n]);
    }
  }

  /** The i-th tested group of bits is the i-th character from the right. */
  lemma LetterIs(letters: seq<nat>, thirteenth: nat, i: nat)
    requires IsName(letters, thirteenth) && i < 12
    ensures Letter(NameOf(letters, thirteenth), i) == letters[11 - i]
  {
    ShiftedPacked(letters, thirteenth, i);
    var front := letters[..12 - i];
    assert front[..11 - i] == letters[..11 - i];
    DivUnique(Packed(front), 32, Packed(letters[..11 - i]), letters[11 - i]);
  }

  /** newaccount's test finds a dot in any of the twelve places, and only there. */
  lemma DotsFound(letters: seq<nat>, thirteenth: nat)
    requires IsName(letters, thirteenth)
    ensures HasDot(NameOf(letters, thirteenth)) <==> 0 in letters
  {
    var value := NameOf(letters, thirteenth);
    forall i | 0 <= i < 12 ensures Letter(value, i) == letters[11 - i] {
      LetterIs(letters, thirteenth, i);
    }
    if 0 in letters {
      var k :| 0 <= k < 12 && letters[k] == 0;
      assert Letter(value, 11 - k) == 0;
    }
  }

  /** Every 64-bit value is a name. */
  lemma EveryNameHasCharacters(value: nat) returns (letters: seq<nat>, thirteenth: nat)
    requires value < TWO64
    ensures IsName(letters, thirteenth) && NameOf(letters, thirteenth) == value
  {
    letters, thirteenth := Unpacked(value / 16, 12), value % 16;
    UnpackedPacks(value / 16, 12);
    PowerOf32();
  }

  lemma PowerOf32()
    ensures Pow(32, 12) == TWO64 / 16
  {
    assert Pow(32, 3) == 0x8000;
    PowAdd(32, 3, 3);
    PowAdd(32, 6, 6);
  }

  function Unpacked(x: nat, n: nat): (letters: seq<nat>)
    ensures |letters| == n && forall i :: 0 <= i < n ==> letters[i] < 32
  {
    if n == 0 then [] else Unpacked(x / 32, n - 1) + [x % 32]
  }

  lemma {:induction false} UnpackedPacks(x: nat, n: nat)
    requires x < Pow(32, n)
    ensures Packed(Unpacked(x, n)) == x
  {
    if n > 0 {
      UnpackedPacks(x / 32, n - 1);
      assert Unpacked(x, n)[..n - 1] == Unpacked(x / 32, n - 1);
    }
  }

  /** A name can be bid on if it is at most eleven characters long and has any. */
  lemma BiddableCharacters(letters: seq<nat>, thirteenth: nat)
    requires IsName(letters, thirteenth)
    ensures Biddable(NameOf(letters, thirteenth)) <==>
              thirteenth == 0 && letters[11] == 0 && exists i :: 0 <= i < 11 && letters[i] != 0
  {
    var value := NameOf(letters, thirteenth);
    LetterIs(letters, thirteenth, 0);
    DivUnique(value, 16, Packed(letters), thirteenth);
    PackedZero(letters);
  }

  lemma {:induction false} PackedZero(letters: seq<nat>)
    ensures Packed(letters) == 0 <==> forall i :: 0 <= i < |letters| ==> letters[i] == 0
  {
    if letters != [] {
      var init := letters[..|letters| - 1];
      PackedZero(init);
      assert forall i :: 0 <= i < |init| ==> init[i] == letters[i];
    }
  }

  /**
   * Who may create a name, told by its characters: anyone for twelve characters without a dot; otherwise
   * the winner of its closed auction if it is top-level, and its suffix if it is not.
   */
  lemma CreationByCharacters(s: State, creator: Name, letters: seq<nat>, thirteenth: nat)
    requires AuctionOk(s) && IsName(letters, thirteenth) && creator != SYSTEM
    ensures var newname := NameOf(letters, thirteenth);
            NewAccount(s, creator, newname).Ok? <==>
              && newname !in s.ledger.accounts
              && (0 in letters && s.suffix(newname) == newname ==>
                    newname in s.bids && s.bids[newname].highBid < 0 && s.bids[newname].highBidder == creator)
              && (0 in letters && s.suffix(newname) != newname ==> creator == s.suffix(newname))
  {
    hide HasDot, AuctionOk;
    DotsFound(letters, thirteenth);
    CreationKeeps(s, creator, NameOf(letters, thirteenth));
  }
}
