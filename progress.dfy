/** The two progress tables, "incorrect" and "mastered", as in-memory lists of rows.
    `add_to_sheet` appends a question unless a row with the same (key, eng) is
    there; `remove_from_sheet` deletes the first row with that (key, eng). */
module Progress {
  import opened Wrappers
  import opened QuizBank

  /** Rows are matched on the question's unit key and English sentence. */
  predicate SameIdentity(r: Question, q: Question) {
    r.key == q.key && r.eng == q.eng
  }

  predicate Holds(rows: seq<Question>, q: Question) {
    exists i :: 0 <= i < |rows| && SameIdentity(rows[i], q)
  }

  /** No two rows share an identity. */
  predicate Unique(rows: seq<Question>) {
    forall i, j :: 0 <= i < j < |rows| ==> !SameIdentity(rows[i], rows[j])
  }

  /** The position of the first row with the identity of `q`. */
  function FirstMatch(rows: seq<Question>, q: Question): (found: Option<nat>)
    ensures found.None? <==> !Holds(rows, q)
    ensures found.Some? ==> found.value < |rows| && SameIdentity(rows[found.value], q) &&
                            forall j :: 0 <= j < found.value ==> !SameIdentity(rows[j], q)
  {
    if rows == [] then None
    else if SameIdentity(rows[0], q) then Some(0)
    else match FirstMatch(rows[1..], q)
      case None => None
      case Some(i) => Some(i + 1)
  }

  /** The table after `add_to_sheet(q)`. */
  function Added(rows: seq<Question>, q: Question): seq<Question> {
    if Holds(rows, q) then rows else rows + [q]
  }

  /** The table after `remove_from_sheet(q)`. */
  function Removed(rows: seq<Question>, q: Question): seq<Question> {
    match FirstMatch(rows, q)
    case None => rows
    case Some(i) => rows[..i] + rows[i + 1..]
  }

  /** The scan both sheet operations make over the existing rows. */
  method Find(rows: seq<Question>, q: Question) returns (found: Option<nat>)
    ensures found == FirstMatch(rows, q)
  {
    var i := 0;
    while i < |rows|
      invariant i <= |rows|
      invariant forall j :: 0 <= j < i ==> !SameIdentity(rows[j], q)
    {
      if rows[i].key == q.key && rows[i].eng == q.eng {
        return Some(i);
      }
      i := i + 1;
    }
    return None;
  }

  /** One worksheet. */
  class Table {
    var rows: seq<Question>

    constructor (rows: seq<Question>)
      ensures this.rows == rows
    {
      this.rows := rows;
    }

    /** `add_to_sheet` */
    method Add(q: Question)
      modifies this
      ensures rows == Added(old(rows), q)
    {
      var found := Find(rows, q);
      if found == None {
        rows := rows + [q];
      }
    }

    /** `remove_from_sheet` */
    method Remove(q: Question)
      modifies this
      ensures rows == Removed(old(rows), q)
    {
      var found := Find(rows, q);
      if found.Some? {
        rows := rows[..found.value] + rows[found.value + 1..];
      }
    }
  }

  /** After adding, the question's identity is in the table, and adding it again changes nothing. */
  lemma AddIdempotent(rows: seq<Question>, q: Question)
    ensures Holds(Added(rows, q), q)
    ensures Added(Added(rows, q), q) == Added(rows, q)
  {
    if !Holds(rows, q) {
      assert Added(rows, q)[|rows|] == q;
    }
  }

  /** Adding never duplicates an identity. */
  lemma AddKeepsUnique(rows: seq<Question>, q: Question)
    requires Unique(rows)
    ensures Unique(Added(rows, q))
  {
  }

  /** Removing deletes exactly the first row with the identity and keeps the others in order. */
  lemma RemoveFirstOnly(rows: seq<Question>, q: Question)
    ensures !Holds(rows, q) ==> Removed(rows, q) == rows
    ensures Holds(rows, q) ==>
              |Removed(rows, q)| == |rows| - 1 &&
              exists i :: 0 <= i < |rows| && SameIdentity(rows[i], q) &&
                          (forall j :: 0 <= j < i ==> !SameIdentity(rows[j], q)) &&
                          Removed(rows, q) == rows[..i] + rows[i + 1..]
  {
    if Holds(rows, q) {
      var i := FirstMatch(rows, q).value;
      assert SameIdentity(rows[i], q);
    }
  }

  /** In a table without duplicates, removing a question removes its identity. */
  lemma RemoveClears(rows: seq<Question>, q: Question)
    requires Unique(rows)
    ensures !Holds(Removed(rows, q), q)
    ensures Unique(Removed(rows, q))
  {
    var r := Removed(rows, q);
    if FirstMatch(rows, q).Some? {
      var i := FirstMatch(rows, q).value;
      forall k | 0 <= k < |r| ensures !SameIdentity(r[k], q) {
        if k < i {
          assert r[k] == rows[k];
        } else {
          assert r[k] == rows[k + 1];
          assert !SameIdentity(rows[i], rows[k + 1]);
        }
      }
      forall a, b | 0 <= a < b < |r| ensures !SameIdentity(r[a], r[b]) {
        var a' := if a < i then a else a + 1;
        var b' := if b < i then b else b + 1;
        assert r[a] == rows[a'] && r[b] == rows[b'];
      }
    }
  }

  /** Removing a question that was just added to a table without it gives the table back. */
  lemma RemoveUndoesAdd(rows: seq<Question>, q: Question)
    requires !Holds(rows, q)
    ensures Removed(Added(rows, q), q) == rows
  {
    var added := rows + [q];
    assert added[|rows|] == q;
    assert Holds(added, q);
    assert FirstMatch(added, q) == Some(|rows|);
    assert added[..|rows|] == rows;
  }
}
