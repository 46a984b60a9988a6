/** The user store: the values a new user is inserted with, and the
    UPDATE statement built from a partial profile change. */
module Users {
  import opened Common

  /** A JavaScript string field is truthy when it is given and not empty. */
  predicate Present(x: Option<string>)
  {
    x.Some? && x.value != ""
  }

  /** What a client passes to create a user; the password is hashed before
      it is stored and does not appear here. */
  datatype UserInput = UserInput(mykadId: string, fullName: string, email: string,
                                 phone: Option<string>, address: Option<string>,
                                 bumiputeraStatus: Option<bool>)

  datatype UserRow = UserRow(mykadId: string, fullName: string, email: string,
                             phone: Option<string>, address: Option<string>,
                             bumiputeraStatus: bool)

  /** Missing or empty phone and address are stored as null; the bumiputera
      flag is false unless it is given as true. */
  function NewUserRow(u: UserInput): (row: UserRow)
    ensures row.phone.None? <==> !Present(u.phone)
    ensures row.phone.Some? ==> row.phone == u.phone
    ensures row.address.None? <==> !Present(u.address)
    ensures row.address.Some? ==> row.address == u.address
    ensures row.bumiputeraStatus <==> u.bumiputeraStatus == Some(true)
    ensures row.mykadId == u.mykadId && row.fullName == u.fullName && row.email == u.email
  {
    UserRow(u.mykadId, u.fullName, u.email,
            if Present(u.phone) then u.phone else None,
            if Present(u.address) then u.address else None,
            u.bumiputeraStatus == Some(true))
  }

  /** A partial profile change. */
  datatype UserUpdate = UserUpdate(fullName: Option<string>, email: Option<string>,
                                   phone: Option<string>, address: Option<string>)

  /** One column with the value it is set to. */
  datatype Change = Change(column: string, value: string)

  /** The value a column is set to, if the change sets it. */
  function NewValue(u: UserUpdate, column: string): Option<string>
  {
    if column == "full_name" && Present(u.fullName) then u.fullName
    else if column == "email" && Present(u.email) then u.email
    else if column == "phone" && Present(u.phone) then u.phone
    else if column == "address" && Present(u.address) then u.address
    else None
  }

  /** The change a single field contributes: none when it is falsy. */
  function Piece(x: Option<string>, column: string): seq<Change>
  {
    if Present(x) then [Change(column, x.value)] else []
  }

  /** The columns a change sets, in the fixed order full_name, email,
      phone, address, skipping those not given or empty. */
  function Changes(u: UserUpdate): (cs: seq<Change>)
    ensures |cs| <= 4
    ensures forall i, j :: 0 <= i < j < |cs| ==> cs[i].column != cs[j].column
    ensures forall c :: c in cs ==> c.value != ""
  {
    Piece(u.fullName, "full_name") + Piece(u.email, "email") + Piece(u.phone, "phone") +
    Piece(u.address, "address")
  }

  /** The changes are exactly the truthy fields, each with its value. */
  lemma ChangesAreNewValues(u: UserUpdate)
    ensures forall c :: c in Changes(u) ==> NewValue(u, c.column) == Some(c.value)
    ensures forall col :: NewValue(u, col).Some? ==> Change(col, NewValue(u, col).value) in Changes(u)
  {
  }

  /** An item of the SET list: a column bound to placeholder `$param`, or
      the timestamp refresh `updated_at = NOW()`. */
  datatype SetItem = Assign(column: string, param: nat) | Now

  /** Either no statement is issued and the user is re-read by id, or an
      UPDATE with its SET items, its parameter values and the placeholder
      number of its WHERE clause. */
  datatype Statement =
    | FetchById(id: string)
    | Update(items: seq<SetItem>, values: seq<string>, whereParam: nat)

  /** The SET items and values built so far assign the changes `cs` to the
      placeholders $1 .. $(paramCount - 1), in order. */
  ghost predicate Aligned(updates: seq<SetItem>, values: seq<string>, cs: seq<Change>, paramCount: nat)
  {
    |updates| == |values| == |cs| == paramCount - 1 &&
    forall k :: 0 <= k < |cs| ==> updates[k] == Assign(cs[k].column, k + 1) && values[k] == cs[k].value
  }

  /** One guarded step of the builder: a truthy field pushes its assignment
      to the next placeholder and its value, and advances the counter. */
  method PushIfPresent(updates: seq<SetItem>, values: seq<string>, paramCount: nat, ghost cs: seq<Change>,
                       x: Option<string>, column: string)
    returns (updates': seq<SetItem>, values': seq<string>, paramCount': nat, ghost cs': seq<Change>)
    requires Aligned(updates, values, cs, paramCount)
    ensures cs' == cs + Piece(x, column)
    ensures Aligned(updates', values', cs', paramCount')
  {
    updates', values', paramCount', cs' := updates, values, paramCount, cs;
    if Present(x) {
      updates' := updates' + [Assign(column, paramCount')];
      paramCount' := paramCount' + 1;
      values' := values' + [x.value];
      cs' := cs' + [Change(column, x.value)];
    }
  }

  /** An UPDATE assigns the n changes to placeholders $1 .. $n in order,
      ends its SET list with the timestamp, and binds the id to the WHERE
      placeholder $(n+1), the last of its n + 1 values. */
  ghost predicate BuiltFrom(id: string, u: UserUpdate, st: Statement)
  {
    var cs := Changes(u);
    st.Update? &&
    |st.items| == |cs| + 1 && st.items[|cs|] == Now &&
    |st.values| == |cs| + 1 && st.values[|cs|] == id && st.whereParam == |cs| + 1 &&
    forall k :: 0 <= k < |cs| ==> st.items[k] == Assign(cs[k].column, k + 1) && st.values[k] == cs[k].value
  }

  /** Builds the statement as the store does: each truthy field pushes an
      assignment to the next placeholder and its value, the timestamp is
      pushed last, and the id becomes the final parameter. */
  method BuildUpdate(id: string, u: UserUpdate) returns (st: Statement)
    ensures Changes(u) == [] <==> st == FetchById(id)
    ensures st.Update? ==> BuiltFrom(id, u, st)
  {
    var updates: seq<SetItem> := [];
    var values: seq<string> := [];
    var paramCount := 1;
    ghost var cs: seq<Change> := [];
    updates, values, paramCount, cs := PushIfPresent(updates, values, paramCount, cs, u.fullName, "full_name");
    updates, values, paramCount, cs := PushIfPresent(updates, values, paramCount, cs, u.email, "email");
    updates, values, paramCount, cs := PushIfPresent(updates, values, paramCount, cs, u.phone, "phone");
    updates, values, paramCount, cs := PushIfPresent(updates, values, paramCount, cs, u.address, "address");
    assert cs == Changes(u);
    updates := updates + [Now];
    if |updates| == 1 {
      return FetchById(id);
    }
    values := values + [id];
    st := Update(updates, values, paramCount);
  }

  /** The k-th change sets its column to the value the update gives it. */
  lemma ChangeAt(u: UserUpdate, k: nat)
    requires k < |Changes(u)|
    ensures NewValue(u, Changes(u)[k].column) == Some(Changes(u)[k].value)
  {
    ChangesAreNewValues(u);
    assert Changes(u)[k] in Changes(u);
  }

  /** A SET item that assigns a column is the assignment of a change. */
  lemma AssignAt(id: string, u: UserUpdate, st: Statement, k: nat)
    requires BuiltFrom(id, u, st)
    requires k < |st.items| && st.items[k].Assign?
    ensures k < |Changes(u)|
    ensures st.items[k] == Assign(Changes(u)[k].column, k + 1) && st.values[k] == Changes(u)[k].value
  {
  }

  /** Every placeholder of a built UPDATE has exactly one value: each SET
      placeholder picks the value of its own column and the WHERE
      placeholder picks the id. */
  lemma PlaceholdersMatchValues(id: string, u: UserUpdate, st: Statement)
    requires BuiltFrom(id, u, st)
    ensures forall k :: 0 <= k < |st.items| && st.items[k].Assign? ==>
              1 <= st.items[k].param < st.whereParam &&
              NewValue(u, st.items[k].column) == Some(st.values[st.items[k].param - 1])
    ensures st.values[st.whereParam - 1] == id
  {
    forall k | 0 <= k < |st.items| && st.items[k].Assign?
      ensures 1 <= st.items[k].param < st.whereParam
      ensures NewValue(u, st.items[k].column) == Some(st.values[st.items[k].param - 1])
    {
      AssignAt(id, u, st, k);
      ChangeAt(u, k);
    }
  }

  /** A built UPDATE assigns exactly the supplied columns. */
  lemma AssignsExactlySupplied(id: string, u: UserUpdate, st: Statement)
    requires BuiltFrom(id, u, st)
    ensures forall c :: NewValue(u, c).Some? <==> exists k :: 0 <= k < |st.items| && st.items[k] == Assign(c, k + 1)
  {
    forall c | NewValue(u, c).Some?
      ensures exists k :: 0 <= k < |st.items| && st.items[k] == Assign(c, k + 1)
    {
      ChangesAreNewValues(u);
      var cs := Changes(u);
      var k :| 0 <= k < |cs| && cs[k] == Change(c, NewValue(u, c).value);
      assert st.items[k] == Assign(c, k + 1);
    }
    forall c | exists k :: 0 <= k < |st.items| && st.items[k] == Assign(c, k + 1)
      ensures NewValue(u, c).Some?
    {
      var k :| 0 <= k < |st.items| && st.items[k] == Assign(c, k + 1);
      AssignAt(id, u, st, k);
      ChangeAt(u, k);
    }
  }
}
