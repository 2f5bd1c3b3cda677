/** The partial-update algorithm that every `update_*` controller repeats:
    walk a fixed, ordered list of optional arguments, keep the truthy ones as
    `col = ?` assignments and their values as parameters, refuse when none is
    kept, otherwise join the assignments into the SET clause, append the key
    value(s) after the field values and turn the database's outcome into a
    `{success, message}` reply. */
module PartialUpdate {
  import opened Values
  import opened SqlText

  /** One optional argument: the column it sets and the value supplied. */
  type Arg = (string, Value)

  /** What the database reports when the statement is executed and committed. */
  datatype DbOutcome = DbOk | DbError(detail: string)

  /** The `{"success": ..., "message": ...}` dictionary the controllers return. */
  datatype Reply = Reply(success: bool, message: string)

  /** An UPDATE sent to the database: `UPDATE table SET setClause WHERE whereClause`,
      with `params` bound to its placeholders in order. */
  datatype Statement = Statement(table: string, setClause: string, whereClause: string, params: seq<Value>)

  /** The builder's answer: refuse, or a SET clause with its parameters. */
  datatype Build = Reject | Prepared(setClause: string, params: seq<Value>)

  /** What one update call does: the reply, and the statement sent to the
      database (None when no connection was opened at all). */
  datatype Update = Update(reply: Reply, sent: Option<Statement>)

  /** The per-table constants of one controller: table name, its two reply
      texts and its WHERE clause on the key. */
  datatype Entity = Entity(table: string, successMessage: string, errorPrefix: string, whereClause: string)

  const NoFieldsMessage: string := "No fields to update."

  function Assignment(column: string): string
  {
    column + " = ?"
  }

  /** The arguments that take part in the update, in argument order. */
  function Included(args: seq<Arg>): seq<Arg>
  {
    if args == [] then []
    else
      var last := args[|args| - 1];
      Included(args[..|args| - 1]) + (if Truthy(last.1) then [last] else [])
  }

  /** The `col = ?` fragments of a list of included arguments. */
  function Assignments(inc: seq<Arg>): seq<string>
  {
    seq(|inc|, j requires 0 <= j < |inc| => Assignment(inc[j].0))
  }

  /** The values bound to those fragments, one for one. */
  function Bindings(inc: seq<Arg>): seq<Value>
  {
    seq(|inc|, j requires 0 <= j < |inc| => inc[j].1)
  }

  /** The fragment that one argument contributes: one `col = ?` if its value is
      truthy, nothing otherwise. */
  function Fragment(column: string, v: Value): seq<string>
  {
    if Truthy(v) then [Assignment(column)] else []
  }

  /** The parameter that one argument contributes, parallel to Fragment. */
  function Param(v: Value): seq<Value>
  {
    if Truthy(v) then [v] else []
  }

  /** The reply for a statement that reached the database. */
  function Outcome(e: Entity, db: DbOutcome): Reply
  {
    match db
    case DbOk => Reply(true, e.successMessage)
    case DbError(d) => Reply(false, e.errorPrefix + d)
  }

  /** Keeping the truthy arguments of a concatenation keeps those of each part. */
  lemma {:induction false} IncludedConcat(a: seq<Arg>, b: seq<Arg>)
    ensures Included(a + b) == Included(a) + Included(b)
    decreases |b|
  {
    if b == [] {
      assert a + b == a;
    } else {
      var n := |b| - 1;
      assert (a + b)[..|a + b| - 1] == a + b[..n];
      IncludedConcat(a, b[..n]);
    }
  }

  /** Nothing is kept exactly when every argument is falsy. */
  lemma {:induction false} IncludedEmpty(args: seq<Arg>)
    ensures Included(args) == [] <==> forall k :: 0 <= k < |args| ==> !Truthy(args[k].1)
  {
    if args != [] {
      var n := |args| - 1;
      IncludedEmpty(args[..n]);
      assert forall k :: 0 <= k < n ==> args[..n][k] == args[k];
    }
  }

  /** Every kept argument is one of the arguments, and a truthy one. */
  lemma {:induction false} IncludedSound(args: seq<Arg>)
    ensures forall x :: x in Included(args) ==> x in args && Truthy(x.1)
  {
    if args != [] {
      var n := |args| - 1;
      IncludedSound(args[..n]);
      assert forall x :: x in args[..n] ==> x in args;
    }
  }

  /** A truthy argument at position k is kept, right after the ones kept from
      the arguments before it. */
  lemma IncludedPosition(args: seq<Arg>, k: nat)
    requires k < |args| && Truthy(args[k].1)
    ensures |Included(args[..k])| < |Included(args)|
    ensures Included(args)[|Included(args[..k])|] == args[k]
  {
    assert args == args[..k] + [args[k]] + args[k + 1..];
    IncludedConcat(args[..k] + [args[k]], args[k + 1..]);
    IncludedConcat(args[..k], [args[k]]);
    assert Included([args[k]]) == [args[k]] by {
      assert [args[k]][..0] == [];
    }
  }

  /** Kept arguments keep their relative order. */
  lemma IncludedOrder(args: seq<Arg>, i: nat, j: nat)
    requires i < j <= |args| && Truthy(args[i].1)
    ensures |Included(args[..i])| < |Included(args[..j])|
  {
    assert args[..j] == args[..i] + args[i..j];
    IncludedConcat(args[..i], args[i..j]);
    IncludedPosition(args[i..j], 0);
  }

  /** Fragments and parameters run parallel: the parameter at each position
      is the value of the argument whose column the fragment names. */
  lemma Parallel(args: seq<Arg>)
    ensures |Assignments(Included(args))| == |Bindings(Included(args))| == |Included(args)|
    ensures forall p :: 0 <= p < |Included(args)| ==>
      Assignments(Included(args))[p] == Assignment(Included(args)[p].0) &&
      Bindings(Included(args))[p] == Included(args)[p].1
  {
  }

  /** The first argument contributes its fragment and parameter in front. */
  lemma ConsArg(column: string, v: Value, rest: seq<Arg>)
    ensures Assignments(Included([(column, v)] + rest)) == Fragment(column, v) + Assignments(Included(rest))
    ensures Bindings(Included([(column, v)] + rest)) == Param(v) + Bindings(Included(rest))
  {
    IncludedConcat([(column, v)], rest);
    assert [(column, v)][..0] == [];
    var one := Included([(column, v)]);
    assert Assignments(one + Included(rest)) == Assignments(one) + Assignments(Included(rest));
    assert Bindings(one + Included(rest)) == Bindings(one) + Bindings(Included(rest));
  }

  /** The only argument contributes just its own fragment and parameter. */
  lemma LastArg(column: string, v: Value)
    ensures Assignments(Included([(column, v)])) == Fragment(column, v)
    ensures Bindings(Included([(column, v)])) == Param(v)
  {
    assert [(column, v)][..0] == [];
  }

  lemma AssignmentNoComma(column: string)
    requires NoComma(column)
    ensures NoComma(Assignment(column))
  {
    var a := Assignment(column);
    forall k | 0 <= k < |a|
      ensures a[k] != ','
    {
      if k < |column| {
        assert a[k] == column[k];
      }
    }
  }

  /** The fragments contain no comma when no column name does, so the SET
      clause splits back into exactly the fragments it was joined from. */
  lemma SetClauseSplits(args: seq<Arg>)
    requires forall k :: 0 <= k < |args| ==> NoComma(args[k].0)
    requires Included(args) != []
    ensures Split(Join(Assignments(Included(args)))) == Assignments(Included(args))
  {
    var inc := Included(args);
    var frags := Assignments(inc);
    IncludedSound(args);
    forall p | 0 <= p < |frags|
      ensures NoComma(frags[p])
    {
      assert inc[p] in inc;
      assert inc[p] in args;
      var k :| 0 <= k < |args| && args[k] == inc[p];
      AssignmentNoComma(args[k].0);
    }
    SplitJoin(frags);
  }

  /** Lines 64-95 of each controller: build the fragments and parameters
      argument by argument, refuse when there are none, otherwise join the
      fragments and append the key values last. */
  method BuildSet(args: seq<Arg>, keys: seq<Value>) returns (b: Build)
    ensures b.Reject? <==> forall k :: 0 <= k < |args| ==> !Truthy(args[k].1)
    ensures b.Prepared? ==>
      b.setClause == Join(Assignments(Included(args))) &&
      b.params == Bindings(Included(args)) + keys
  {
    var fields: seq<string> := [];
    var values: seq<Value> := [];
    for i := 0 to |args|
      invariant fields == Assignments(Included(args[..i]))
      invariant values == Bindings(Included(args[..i]))
    {
      assert args[..i + 1][..i] == args[..i];
      if Truthy(args[i].1) {
        fields := fields + [Assignment(args[i].0)];
        values := values + [args[i].1];
      }
    }
    assert args[..|args|] == args;
    IncludedEmpty(args);
    if fields == [] {
      return Reject;
    }
    b := Prepared(Join(fields), values + keys);
  }

  /** One `update_*` call: refuse without touching the database when no field
      is given, otherwise send the statement and report its outcome. */
  method RunUpdate(e: Entity, args: seq<Arg>, keys: seq<Value>, db: DbOutcome) returns (u: Update)
    ensures u.sent.None? <==> forall k :: 0 <= k < |args| ==> !Truthy(args[k].1)
    ensures u.sent.None? ==> u.reply == Reply(false, NoFieldsMessage)
    ensures u.sent.Some? ==>
      u.sent.value == Statement(e.table, Join(Assignments(Included(args))), e.whereClause,
                                Bindings(Included(args)) + keys)
    ensures u.sent.Some? ==> u.reply == Outcome(e, db)
  {
    var b := BuildSet(args, keys);
    if b.Reject? {
      return Update(Reply(false, NoFieldsMessage), None);
    }
    var stmt := Statement(e.table, b.setClause, e.whereClause, b.params);
    u := Update(Outcome(e, db), Some(stmt));
  }
}
