/** The `users` table of the authentication server: rows of a serial id, an email and a stored
    password (a bcrypt digest, or a provider's filler value for accounts created by a federated
    login), and the `SELECT * FROM users WHERE email=$1` lookup every handler starts with. */
module UserTable {

  datatype Option<T> = None | Some(value: T)

  /** An email as it reaches a query parameter: `None` is a missing value (`undefined` in the
      request body, a null `profile.email`), which pg sends as SQL NULL. */
  type Email = Option<string>

  /** One row of `users`, as `INSERT ... RETURNING *` and `SELECT *` hand it back. */
  datatype Row = Row(id: nat, email: Email, password: string)

  /** No two rows share a present email. Rows with a NULL email may repeat: NULL equals nothing,
      so no lookup ever finds them. */
  ghost predicate UniqueEmails(rows: seq<Row>) {
    forall i, j :: 0 <= i < j < |rows| && rows[i].email.Some? ==> rows[i].email != rows[j].email
  }

  /** The serial id column: every id is distinct and below the next value of the sequence. */
  ghost predicate SerialIds(rows: seq<Row>, nextId: nat) {
    (forall i :: 0 <= i < |rows| ==> rows[i].id < nextId) &&
    (forall i, j :: 0 <= i < j < |rows| ==> rows[i].id != rows[j].id)
  }

  ghost predicate TableInvariant(rows: seq<Row>, nextId: nat) {
    UniqueEmails(rows) && SerialIds(rows, nextId)
  }

  /** SQL's `email=$1`: true only when both sides are present and equal (NULL matches nothing). */
  predicate EmailMatches(r: Row, email: Email) {
    email.Some? && r.email == email
  }

  /** `SELECT * FROM users WHERE email=$1`: the rows with that email, in table order. */
  function Select(rows: seq<Row>, email: Email): (found: seq<Row>)
    ensures forall r :: r in found <==> r in rows && email.Some? && r.email == email
    ensures email.None? ==> found == []
    ensures |found| <= |rows|
    decreases |rows|
  {
    if rows == [] then []
    else (if EmailMatches(rows[0], email) then [rows[0]] else []) + Select(rows[1..], email)
  }

  /** An email is taken exactly when the lookup returns some row. */
  predicate HasEmail(rows: seq<Row>, email: Email) {
    Select(rows, email) != []
  }

  /** The row `INSERT INTO users (email, password) VALUES ($1, $2) RETURNING *` stores. */
  function NewRow(nextId: nat, email: Email, password: string): Row {
    Row(nextId, email, password)
  }

  lemma {:induction false} SelectEmptyIffAbsent(rows: seq<Row>, email: Email)
    ensures Select(rows, email) == [] <==> email.None? || forall i :: 0 <= i < |rows| ==> rows[i].email != email
  {
    if email.Some? {
      if Select(rows, email) == [] {
        forall i | 0 <= i < |rows| ensures rows[i].email != email {
          assert rows[i] in rows;
        }
      } else {
        var r := Select(rows, email)[0];
        assert r in Select(rows, email);
        var i :| 0 <= i < |rows| && rows[i] == r;
      }
    }
  }

  /** Under the invariant a lookup finds at most one row, so `rows[0]` of the result is the only match. */
  lemma {:induction false} SelectAtMostOne(rows: seq<Row>, email: Email)
    requires UniqueEmails(rows)
    ensures |Select(rows, email)| <= 1
  {
    if rows != [] {
      var rest := rows[1..];
      assert UniqueEmails(rest) by {
        forall i, j | 0 <= i < j < |rest| && rest[i].email.Some? ensures rest[i].email != rest[j].email {
          assert rest[i] == rows[i + 1] && rest[j] == rows[j + 1];
        }
      }
      SelectAtMostOne(rest, email);
      if EmailMatches(rows[0], email) {
        SelectEmptyIffAbsent(rest, email);
        forall i | 0 <= i < |rest| ensures rest[i].email != email {
          assert rest[i] == rows[i + 1];
        }
      }
    }
  }

  /** Under the invariant, looking up the email of a stored row returns exactly that row. */
  lemma {:induction false} SelectStoredRow(rows: seq<Row>, row: Row)
    requires UniqueEmails(rows)
    requires row in rows && row.email.Some?
    ensures Select(rows, row.email) == [row]
  {
    SelectAtMostOne(rows, row.email);
    var found := Select(rows, row.email);
    assert row in found;
    assert |found| == 1;
    assert found[0] in found;
  }

  /** Appending a row extends the lookup for its email and leaves every other lookup alone. */
  lemma {:induction false} SelectAppend(rows: seq<Row>, row: Row, email: Email)
    ensures Select(rows + [row], email) == Select(rows, email) + (if EmailMatches(row, email) then [row] else [])
    decreases |rows|
  {
    if rows == [] {
      assert rows + [row] == [row];
      assert [row][1..] == [];
    } else {
      assert (rows + [row])[0] == rows[0];
      assert (rows + [row])[1..] == rows[1..] + [row];
      SelectAppend(rows[1..], row, email);
    }
  }

  /** The check-then-insert step every creating flow takes: inserting a row for an email the
      lookup did not find, with the next serial id, keeps both halves of the invariant. A
      present email then finds exactly the new row; a NULL one still finds nothing. */
  lemma InsertAbsentKeepsInvariant(rows: seq<Row>, nextId: nat, email: Email, password: string)
    requires TableInvariant(rows, nextId)
    requires Select(rows, email) == []
    ensures TableInvariant(rows + [NewRow(nextId, email, password)], nextId + 1)
    ensures Select(rows + [NewRow(nextId, email, password)], email) ==
              if email.Some? then [NewRow(nextId, email, password)] else []
  {
    var rows' := rows + [NewRow(nextId, email, password)];
    SelectEmptyIffAbsent(rows, email);
    SelectAppend(rows, NewRow(nextId, email, password), email);
    forall i, j | 0 <= i < j < |rows'|
      ensures (rows'[i].email.Some? ==> rows'[i].email != rows'[j].email) && rows'[i].id != rows'[j].id
    {
      if j == |rows| {
        assert rows'[i] == rows[i];
      } else {
        assert rows'[i] == rows[i] && rows'[j] == rows[j];
      }
    }
  }
}
