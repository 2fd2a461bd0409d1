/** The question pool of the normal study mode: the bank questions of the selected
    unit, without the mastered ones unless those are asked for, in bank order. */
module PoolFilter {
  import opened Text
  import opened QuizBank

  /** The three unit drop-downs; each may be the wildcard `Whole`. */
  datatype Selection = Selection(major: string, middle: string, minor: string)

  predicate InUnit(q: Question, sel: Selection) {
    (sel.major == Whole || q.major == sel.major) &&
    (sel.middle == Whole || q.middle == sel.middle) &&
    (sel.minor == Whole || q.minor == sel.minor)
  }

  /** A row's fingerprint: its key and English sentence, stripped. */
  function Signature(q: Question): (string, string) {
    (Strip(q.key), Strip(q.eng))
  }

  /** Only rows with a non-empty stripped key and sentence are fingerprinted. */
  predicate Signed(m: Question) {
    Strip(m.key) != [] && Strip(m.eng) != []
  }

  /** The fingerprints of the first `n` mastered rows. */
  function SignaturesUpTo(rows: seq<Question>, n: nat): set<(string, string)>
    requires n <= |rows|
  {
    if n == 0 then {}
    else SignaturesUpTo(rows, n - 1) + if Signed(rows[n - 1]) then {Signature(rows[n - 1])} else {}
  }

  function Signatures(rows: seq<Question>): set<(string, string)> {
    SignaturesUpTo(rows, |rows|)
  }

  /** A fingerprint is recorded exactly when some signed mastered row has it. */
  lemma {:induction false} SignaturesMeaning(rows: seq<Question>, n: nat, sig: (string, string))
    requires n <= |rows|
    ensures sig in SignaturesUpTo(rows, n) <==>
            exists j :: 0 <= j < n && Signed(rows[j]) && Signature(rows[j]) == sig
  {
    if sig in SignaturesUpTo(rows, n) {
      var j := SignatureSource(rows, n, sig);
    }
    if exists j :: 0 <= j < n && Signed(rows[j]) && Signature(rows[j]) == sig {
      var j :| 0 <= j < n && Signed(rows[j]) && Signature(rows[j]) == sig;
      SignatureRecorded(rows, n, j);
    }
  }

  /** Every recorded fingerprint comes from a signed row. */
  lemma {:induction false} SignatureSource(rows: seq<Question>, n: nat, sig: (string, string)) returns (j: nat)
    requires n <= |rows| && sig in SignaturesUpTo(rows, n)
    ensures j < n && Signed(rows[j]) && Signature(rows[j]) == sig
  {
    if sig in SignaturesUpTo(rows, n - 1) {
      j := SignatureSource(rows, n - 1, sig);
    } else {
      j := n - 1;
    }
  }

  /** Every signed row among the first `n` has its fingerprint recorded. */
  lemma {:induction false} SignatureRecorded(rows: seq<Question>, n: nat, j: nat)
    requires j < n <= |rows| && Signed(rows[j])
    ensures Signature(rows[j]) in SignaturesUpTo(rows, n)
  {
    if j < n - 1 {
      SignatureRecorded(rows, n - 1, j);
    }
  }

  predicate Kept(q: Question, sel: Selection, showMastered: bool, sigs: set<(string, string)>) {
    InUnit(q, sel) && (showMastered || Signature(q) !in sigs)
  }

  /** The kept questions among the first `n` of the bank, in bank order. */
  function FilteredUpTo(bank: seq<Question>, n: nat, sel: Selection, showMastered: bool,
                        sigs: set<(string, string)>): seq<Question>
    requires n <= |bank|
  {
    if n == 0 then []
    else FilteredUpTo(bank, n - 1, sel, showMastered, sigs) +
         if Kept(bank[n - 1], sel, showMastered, sigs) then [bank[n - 1]] else []
  }

  /** The pool the normal mode studies. */
  function Pool(bank: seq<Question>, sel: Selection, showMastered: bool, mastered: seq<Question>): seq<Question> {
    FilteredUpTo(bank, |bank|, sel, showMastered, Signatures(mastered))
  }

  /** The loop that builds `mastered_signatures`. */
  method MasteredSignatures(rows: seq<Question>) returns (sigs: set<(string, string)>)
    ensures sigs == Signatures(rows)
  {
    sigs := {};
    var i := 0;
    while i < |rows|
      invariant i <= |rows|
      invariant sigs == SignaturesUpTo(rows, i)
    {
      var k := Strip(rows[i].key);
      var e := Strip(rows[i].eng);
      if k != [] && e != [] {
        sigs := sigs + {(k, e)};
      }
      i := i + 1;
    }
  }

  /** The loop that builds `filtered`. */
  method FilterPool(bank: seq<Question>, sel: Selection, showMastered: bool, mastered: seq<Question>)
    returns (filtered: seq<Question>)
    ensures filtered == Pool(bank, sel, showMastered, mastered)
  {
    var sigs := MasteredSignatures(mastered);
    filtered := [];
    var i := 0;
    while i < |bank|
      invariant i <= |bank|
      invariant filtered == FilteredUpTo(bank, i, sel, showMastered, sigs)
    {
      var q := bank[i];
      i := i + 1;
      if sel.major != Whole && q.major != sel.major { continue; }
      if sel.middle != Whole && q.middle != sel.middle { continue; }
      if sel.minor != Whole && q.minor != sel.minor { continue; }
      var qKey := Strip(q.key);
      var qEng := Strip(q.eng);
      if !showMastered && (qKey, qEng) in sigs { continue; }
      filtered := filtered + [q];
    }
  }

  /** The positions in the bank of the kept questions among the first `n`. */
  function KeptPositions(bank: seq<Question>, n: nat, sel: Selection, showMastered: bool,
                         sigs: set<(string, string)>): seq<nat>
    requires n <= |bank|
  {
    if n == 0 then []
    else KeptPositions(bank, n - 1, sel, showMastered, sigs) +
         if Kept(bank[n - 1], sel, showMastered, sigs) then [n - 1] else []
  }

  /** The filtered pool is the bank restricted to the kept positions, in increasing
      order: an order-preserving subsequence holding every kept question and nothing else. */
  lemma {:induction false} FilteredIsSubsequence(bank: seq<Question>, n: nat, sel: Selection,
                                                 showMastered: bool, sigs: set<(string, string)>)
    requires n <= |bank|
    ensures var pool, pos := FilteredUpTo(bank, n, sel, showMastered, sigs),
                             KeptPositions(bank, n, sel, showMastered, sigs);
            |pos| == |pool| &&
            (forall k :: 0 <= k < |pos| ==> pos[k] < n && pool[k] == bank[pos[k]]) &&
            (forall a, b :: 0 <= a < b < |pos| ==> pos[a] < pos[b]) &&
            (forall k :: 0 <= k < |pos| ==> Kept(bank[pos[k]], sel, showMastered, sigs)) &&
            (forall i :: 0 <= i < n && Kept(bank[i], sel, showMastered, sigs) ==> i in pos)
  {
    PositionsMatch(bank, n, sel, showMastered, sigs);
    PositionsIncrease(bank, n, sel, showMastered, sigs);
    PositionsComplete(bank, n, sel, showMastered, sigs);
  }

  lemma {:induction false} PositionsMatch(bank: seq<Question>, n: nat, sel: Selection,
                                          showMastered: bool, sigs: set<(string, string)>)
    requires n <= |bank|
    ensures var pool, pos := FilteredUpTo(bank, n, sel, showMastered, sigs),
                             KeptPositions(bank, n, sel, showMastered, sigs);
            |pos| == |pool| &&
            forall k :: 0 <= k < |pos| ==>
              pos[k] < n && pool[k] == bank[pos[k]] && Kept(bank[pos[k]], sel, showMastered, sigs)
  {
    if n > 0 {
      PositionsMatch(bank, n - 1, sel, showMastered, sigs);
      var pool, pos := FilteredUpTo(bank, n - 1, sel, showMastered, sigs),
                       KeptPositions(bank, n - 1, sel, showMastered, sigs);
      if Kept(bank[n - 1], sel, showMastered, sigs) {
        assert FilteredUpTo(bank, n, sel, showMastered, sigs) == pool + [bank[n - 1]];
        assert KeptPositions(bank, n, sel, showMastered, sigs) == pos + [n - 1];
      } else {
        assert FilteredUpTo(bank, n, sel, showMastered, sigs) == pool;
        assert KeptPositions(bank, n, sel, showMastered, sigs) == pos;
      }
    }
  }

  /** Strictly increasing positions, all below `n`. */
  predicate Increasing(pos: seq<nat>, n: nat) {
    (forall k :: 0 <= k < |pos| ==> pos[k] < n) &&
    (forall a, b :: 0 <= a < b < |pos| ==> pos[a] < pos[b])
  }

  lemma {:induction false} PositionsIncrease(bank: seq<Question>, n: nat, sel: Selection,
                                             showMastered: bool, sigs: set<(string, string)>)
    requires n <= |bank|
    ensures Increasing(KeptPositions(bank, n, sel, showMastered, sigs), n)
  {
    if n > 0 {
      PositionsIncrease(bank, n - 1, sel, showMastered, sigs);
      var pos := KeptPositions(bank, n - 1, sel, showMastered, sigs);
      assert Increasing(pos, n - 1);
      if Kept(bank[n - 1], sel, showMastered, sigs) {
        var pos' := pos + [n - 1];
        assert KeptPositions(bank, n, sel, showMastered, sigs) == pos';
        forall a, b | 0 <= a < b < |pos'| ensures pos'[a] < pos'[b] {
          if b < |pos| {
            assert pos'[a] == pos[a] && pos'[b] == pos[b];
          } else {
            assert pos'[a] == pos[a] < n - 1;
          }
        }
      } else {
        assert KeptPositions(bank, n, sel, showMastered, sigs) == pos;
      }
    }
  }

  lemma {:induction false} PositionsComplete(bank: seq<Question>, n: nat, sel: Selection,
                                             showMastered: bool, sigs: set<(string, string)>)
    requires n <= |bank|
    ensures forall i :: 0 <= i < n && Kept(bank[i], sel, showMastered, sigs) ==>
              i in KeptPositions(bank, n, sel, showMastered, sigs)
  {
    if n > 0 {
      PositionsComplete(bank, n - 1, sel, showMastered, sigs);
      var pos := KeptPositions(bank, n - 1, sel, showMastered, sigs);
      if Kept(bank[n - 1], sel, showMastered, sigs) {
        assert KeptPositions(bank, n, sel, showMastered, sigs) == pos + [n - 1];
      } else {
        assert KeptPositions(bank, n, sel, showMastered, sigs) == pos;
      }
    }
  }

  /** A question is in the pool exactly when it is in the bank and kept. */
  lemma {:induction false} PoolMembers(bank: seq<Question>, n: nat, sel: Selection,
                                       showMastered: bool, sigs: set<(string, string)>, q: Question)
    requires n <= |bank|
    ensures q in FilteredUpTo(bank, n, sel, showMastered, sigs) <==>
            (exists i :: 0 <= i < n && bank[i] == q) && Kept(q, sel, showMastered, sigs)
  {
    if n > 0 {
      PoolMembers(bank, n - 1, sel, showMastered, sigs, q);
    }
  }

  /** Every pooled question lies in each selected (non-wildcard) unit, and unless the
      mastered questions are shown, none has the stripped key and sentence of a signed
      mastered row, whatever whitespace pads either. */
  lemma PoolExcludesMastered(bank: seq<Question>, sel: Selection, showMastered: bool, mastered: seq<Question>)
    ensures forall q :: q in Pool(bank, sel, showMastered, mastered) ==>
              q in bank && InUnit(q, sel) &&
              (!showMastered ==>
                 forall m :: m in mastered && Signed(m) ==>
                   Strip(q.key) != Strip(m.key) || Strip(q.eng) != Strip(m.eng))
  {
    var sigs := Signatures(mastered);
    forall q | q in Pool(bank, sel, showMastered, mastered)
      ensures q in bank && InUnit(q, sel)
      ensures !showMastered ==> forall m :: m in mastered && Signed(m) ==>
                Strip(q.key) != Strip(m.key) || Strip(q.eng) != Strip(m.eng)
    {
      PoolMembers(bank, |bank|, sel, showMastered, sigs, q);
      forall m | m in mastered && Signed(m)
        ensures !showMastered ==> Strip(q.key) != Strip(m.key) || Strip(q.eng) != Strip(m.eng)
      {
        var j :| 0 <= j < |mastered| && mastered[j] == m;
        SignaturesMeaning(mastered, |mastered|, Signature(m));
      }
    }
  }

  /** With every unit a wildcard and the mastered questions shown, the pool is the bank. */
  lemma {:induction false} WholeBank(bank: seq<Question>, n: nat, sigs: set<(string, string)>)
    requires n <= |bank|
    ensures FilteredUpTo(bank, n, Selection(Whole, Whole, Whole), true, sigs) == bank[..n]
  {
    if n > 0 {
      WholeBank(bank, n - 1, sigs);
      assert bank[..n] == bank[..n - 1] + [bank[n - 1]];
    }
  }
}
