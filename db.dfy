/**
 * The small logic of the database layer (src/db.ts): the `sql` template builder, the argument
 * normalisation of `q` and `r`, and a tracking store driven by BEGIN / COMMIT / ROLLBACK.
 * The PostgreSQL server itself is abstract: a script either fails (it is in `broken`) or is
 * recorded as run, and the tracking table is a map from migration name to row.
 */
module Db {
  import opened Wrappers

  // ---------------------------------------------------------------------------------------
  // The `sql` template builder

  /** An entry of the `values` array `sql` returns. */
  datatype Slot<V> =
    | ValuesArray   // the `values` array itself, which is what `values.push(values)` stores
    | Arg(v: V)     // an interpolated argument

  /** The query text, as a list of literal template parts and numbered placeholders. */
  datatype Piece = Literal(text: string) | Param(number: nat)

  function Digit(d: nat): char
    requires d < 10
  {
    "0123456789"[d]
  }

  /** `String(n)` for a non-negative integer. */
  function Decimal(n: nat): string
    decreases n
  {
    if n < 10 then [Digit(n)] else Decimal(n / 10) + [Digit(n % 10)]
  }

  function Render(pieces: seq<Piece>): string {
    if pieces == [] then ""
    else (match pieces[0]
          case Literal(t) => t
          case Param(k) => "$" + Decimal(k)) + Render(pieces[1..])
  }

  lemma {:induction false} RenderAppend(a: seq<Piece>, b: seq<Piece>)
    ensures Render(a + b) == Render(a) + Render(b)
  {
    if a != [] {
      assert (a + b)[0] == a[0];
      assert (a + b)[1..] == a[1..] + b;
      RenderAppend(a[1..], b);
    } else {
      assert a + b == b;
    }
  }

  /** The placeholder numbers, in the order they occur. */
  function Params(pieces: seq<Piece>): seq<nat> {
    if pieces == [] then []
    else (if pieces[0].Param? then [pieces[0].number] else []) + Params(pieces[1..])
  }

  /** The consecutive numbers `lo, lo + 1, …, hi - 1`. */
  function Range(lo: nat, hi: nat): (r: seq<nat>)
    ensures |r| == if lo <= hi then hi - lo else 0
    ensures forall i :: 0 <= i < |r| ==> r[i] == lo + i
    decreases hi - lo
  {
    if lo < hi then [lo] + Range(lo + 1, hi) else []
  }

  /** Template part `i` onwards, each followed by the placeholder `$(i+1)` when `i < count`. */
  function PiecesFrom(parts: seq<string>, count: nat, i: nat): seq<Piece>
    requires i <= |parts|
    decreases |parts| - i
  {
    if i == |parts| then []
    else [Literal(parts[i])] + (if i < count then [Param(i + 1)] else []) + PiecesFrom(parts, count, i + 1)
  }

  function Pieces(parts: seq<string>, count: nat): seq<Piece> {
    PiecesFrom(parts, count, 0)
  }

  /**
   * The placeholders of the built query are `$1, $2, …` numbered consecutively, one for each
   * template part that has an interpolated argument after it: min(|parts|, count) of them.
   */
  lemma {:induction false} PiecesParams(parts: seq<string>, count: nat, i: nat)
    requires i <= |parts|
    ensures Params(PiecesFrom(parts, count, i)) == Range(i + 1, Min(|parts|, count) + 1)
    decreases |parts| - i
  {
    if i < |parts| {
      var head := [Literal(parts[i])] + (if i < count then [Param(i + 1)] else []);
      var tail := PiecesFrom(parts, count, i + 1);
      ParamsAppend(head, tail);
      PiecesParams(parts, count, i + 1);
      if i < count {
        assert Params(head) == [i + 1] by {
          assert head[1..][1..] == [];
        }
      } else {
        assert Params(head) == [] by {
          assert head[1..] == [];
        }
      }
    }
  }

  lemma {:induction false} ParamsAppend(a: seq<Piece>, b: seq<Piece>)
    ensures Params(a + b) == Params(a) + Params(b)
  {
    if a != [] {
      assert (a + b)[0] == a[0];
      assert (a + b)[1..] == a[1..] + b;
      ParamsAppend(a[1..], b);
    } else {
      assert a + b == b;
    }
  }

  /** Rendering part `i` onwards: the part, its placeholder if any, then the rest. */
  lemma RenderStep(parts: seq<string>, count: nat, i: nat)
    requires i < |parts|
    ensures Render(PiecesFrom(parts, count, i))
         == parts[i] + (if i < count then "$" + Decimal(i + 1) else "") + Render(PiecesFrom(parts, count, i + 1))
  {
    var head := [Literal(parts[i])] + (if i < count then [Param(i + 1)] else []);
    RenderAppend(head, PiecesFrom(parts, count, i + 1));
    assert Render(head) == parts[i] + (if i < count then "$" + Decimal(i + 1) else "") by {
      if i < count {
        assert head[1..][1..] == [];
      } else {
        assert head[1..] == [];
      }
    }
  }

  /** One round of the `sql` loop keeps the text built so far a prefix of the whole text. */
  lemma QueryStep(before: string, part: string, numbered: bool, digits: string, here: string, rest: string, whole: string, after: string)
    requires before + here == whole
    requires here == part + (if numbered then "$" + digits else "") + rest
    requires after == if numbered then before + part + "$" + digits else before + part
    ensures after + rest == whole
  {
    if numbered {
      assert after == before + (part + ("$" + digits));
    }
  }

  /**
   * `sql` as written: the text interleaves the parts with `$1, $2, …`, and every pushed value is
   * the `values` array itself, so no interpolated argument is captured.
   */
  method Sql<V>(parts: seq<string>, vars: seq<V>) returns (query: string, values: seq<Slot<V>>)
    ensures query == Render(Pieces(parts, |vars|))
    ensures |values| == Min(|parts|, |vars|)
    ensures forall i :: 0 <= i < |values| ==> values[i] == ValuesArray
  {
    query, values := "", [];
    for index := 0 to |parts|
      invariant query + Render(PiecesFrom(parts, |vars|, index)) == Render(Pieces(parts, |vars|))
      invariant |values| == Min(index, |vars|)
      invariant forall i :: 0 <= i < |values| ==> values[i] == ValuesArray
    {
      RenderStep(parts, |vars|, index);
      ghost var before := query;
      query := query + parts[index];
      if index < |vars| {
        values := values + [ValuesArray];
        var num := |values|;
        query := query + "$" + Decimal(num);
      }
      QueryStep(before, parts[index], index < |vars|, Decimal(index + 1), Render(PiecesFrom(parts, |vars|, index)),
                Render(PiecesFrom(parts, |vars|, index + 1)), Render(Pieces(parts, |vars|)), query);
    }
    assert PiecesFrom(parts, |vars|, |parts|) == [];
  }

  /** The discrepancy: `sql` over `a = ${7}` binds `$1` to the values array, not to 7. */
  method SqlDropsArgument() returns (query: string, values: seq<Slot<int>>)
    ensures query == "a = $1"
    ensures values == [ValuesArray] && values != [Arg(7)]
  {
    query, values := Sql(["a = ", ""], [7]);
    assert Pieces(["a = ", ""], 1) == [Literal("a = "), Param(1), Literal("")];
    assert Render([Literal("a = "), Param(1), Literal("")]) == "a = $1";
  }

  /**
   * `sql` as evidently intended: the same text, and the value pushed for part `i` is the
   * argument interpolated after it, so placeholder `$k` is bound to argument `k`.
   */
  method SqlIntended<V>(parts: seq<string>, vars: seq<V>) returns (query: string, values: seq<Slot<V>>)
    ensures query == Render(Pieces(parts, |vars|))
    ensures |values| == Min(|parts|, |vars|)
    ensures forall k :: k in Params(Pieces(parts, |vars|)) ==> 1 <= k <= |values| && values[k - 1] == Arg(vars[k - 1])
  {
    query, values := "", [];
    for index := 0 to |parts|
      invariant query + Render(PiecesFrom(parts, |vars|, index)) == Render(Pieces(parts, |vars|))
      invariant |values| == Min(index, |vars|)
      invariant forall i :: 0 <= i < |values| ==> values[i] == Arg(vars[i])
    {
      RenderStep(parts, |vars|, index);
      ghost var before := query;
      query := query + parts[index];
      if index < |vars| {
        values := values + [Arg(vars[index])];
        query := query + "$" + Decimal(|values|);
      }
      QueryStep(before, parts[index], index < |vars|, Decimal(index + 1), Render(PiecesFrom(parts, |vars|, index)),
                Render(PiecesFrom(parts, |vars|, index + 1)), Render(Pieces(parts, |vars|)), query);
    }
    assert PiecesFrom(parts, |vars|, |parts|) == [];
    PiecesParams(parts, |vars|, 0);
  }

  // ---------------------------------------------------------------------------------------
  // Argument normalisation of `q` and `r`

  /** A JavaScript value passed where an array of query parameters is expected. */
  datatype Values<V> =
    | Undefined                // not passed: falsy, not an array
    | Array(items: seq<V>)     // an array: truthy even when empty
    | NonArray(truthy: bool)   // anything else, truthy or falsy

  /** The first argument of `q`: a query text, or an object with `query` and optional `values`. */
  datatype QueryArg<V> = Text(text: string) | Config(query: string, values: Values<V>)

  /** What `q` hands to the pool: a query text and an array of parameters. */
  datatype Request<V> = Request(text: string, params: seq<V>)

  predicate Truthy<V>(v: Values<V>) {
    match v
    case Undefined => false
    case Array(_) => true
    case NonArray(t) => t
  }

  /**
   * `q`'s normalisation: an object's own `values` win when truthy, else the positional ones; any
   * non-array becomes the empty parameter list.
   */
  function Normalize<V>(query: QueryArg<V>, values: Values<V>): (r: Request<V>)
    ensures r.text == if query.Text? then query.text else query.query
    ensures query.Config? && query.values.Array? ==> r.params == query.values.items
    ensures query.Config? && Truthy(query.values) && !query.values.Array? ==> r.params == []
    ensures (query.Text? || !Truthy(query.values)) && values.Array? ==> r.params == values.items
    ensures (query.Text? || !Truthy(query.values)) && !values.Array? ==> r.params == []
  {
    var chosen := if query.Config? && Truthy(query.values) then query.values else values;
    var text := if query.Config? then query.query else query.text;
    Request(text, if chosen.Array? then chosen.items else [])
  }

  /** `r` forwards a text with its positional values, but an object alone. */
  function RRequest<V>(query: QueryArg<V>, values: Values<V>): (r: Request<V>)
    ensures query.Text? ==> r == Normalize(query, values)
    ensures query.Config? ==> r.text == query.query && r.params == if query.values.Array? then query.values.items else []
  {
    if query.Text? then Normalize(query, values) else Normalize(query, Undefined)
  }

  /** What the pool resolves a query to; only `rows` is read. */
  datatype QueryResult<R> = QueryResult(rows: seq<R>, rowCount: nat)

  /** `q`: the pool's answer to the normalised request. The pool itself is a parameter. */
  function Query<V, R>(pool: Request<V> -> QueryResult<R>, query: QueryArg<V>, values: Values<V>): QueryResult<R> {
    pool(Normalize(query, values))
  }

  /**
   * `r`: the `rows` of the result of `q`, called with the text and its values, or with the
   * object alone.
   */
  function Rows<V, R>(pool: Request<V> -> QueryResult<R>, query: QueryArg<V>, values: Values<V>): (rows: seq<R>)
    ensures query.Text? ==> rows == Query(pool, query, values).rows
    ensures query.Config? ==> rows == Query(pool, query, Undefined).rows
  {
    pool(RRequest(query, values)).rows
  }

  /** Called with an object, `r` ignores positional values that `q` would have used. */
  lemma RDropsPositionalValues<V>(query: string, items: seq<V>)
    ensures RRequest(Config(query, Undefined), Array(items)).params == []
    ensures Normalize(Config(query, Undefined), Array(items)).params == items
  {
  }

  // ---------------------------------------------------------------------------------------
  // The tracking store

  /** Where a row's `exec_date` comes from: a client-side `new Date()` or the server's `now()`. */
  datatype Stamp = ClientClock | ServerNow

  /** A tracking row, keyed by its name (the column is UNIQUE). */
  datatype Row = Row(doSql: string, doHash: string, undoSql: string, undoHash: string, execDate: Stamp)

  /** A statement that took effect. */
  datatype Effect = Ran(script: string) | Inserted(name: string, row: Row) | Updated(name: string, row: Row) | Deleted(name: string)

  /** What a transaction can change: the tracking rows and the effects on the schema. */
  datatype Contents = Contents(rows: map<string, Row>, journal: seq<Effect>)

  /** The transaction-control statements and the release of the pooled client. */
  datatype Control = Begin | Commit | Rollback | Release

  /** Why a statement, a step or a run failed. */
  datatype Fault =
    | ScriptFailed(script: string)      // the server rejected a do or undo script
    | DuplicateName(name: string)       // INSERT hit the UNIQUE constraint on name
    | MissingMigration(name: string)    // `migration.do.sql` read on an undefined migration
    | TransactionInTransaction          // `transaction` called on a transaction handle
    | NotLoaded                         // `await this.state.isReady` rejected: a loader failed

  /** Running a script: rejected when it is broken, recorded otherwise. */
  function Exec(c: Contents, broken: set<string>, script: string): (r: Result<Contents, Fault>)
    ensures r.Success? <==> script !in broken
    ensures r.Success? ==> r.value == Contents(c.rows, c.journal + [Ran(script)])
    ensures r.Failure? ==> r.error == ScriptFailed(script)
  {
    if script in broken then Failure(ScriptFailed(script)) else Success(Contents(c.rows, c.journal + [Ran(script)]))
  }

  /** INSERT of a tracking row: rejected when the name is already tracked. */
  function Insert(c: Contents, name: string, row: Row): (r: Result<Contents, Fault>)
    ensures r.Success? <==> name !in c.rows
    ensures r.Success? ==> r.value.rows == c.rows[name := row] && r.value.journal == c.journal + [Inserted(name, row)]
    ensures r.Failure? ==> r.error == DuplicateName(name)
  {
    if name in c.rows then Failure(DuplicateName(name))
    else Success(Contents(c.rows[name := row], c.journal + [Inserted(name, row)]))
  }

  /** UPDATE … WHERE name = $1: changes the row when there is one, and nothing otherwise. */
  function Update(c: Contents, name: string, row: Row): (r: Contents)
    ensures name in c.rows ==> r.rows == c.rows[name := row]
    ensures name !in c.rows ==> r.rows == c.rows
    ensures r.journal == c.journal + [Updated(name, row)]
  {
    Contents(if name in c.rows then c.rows[name := row] else c.rows, c.journal + [Updated(name, row)])
  }

  /** DELETE … WHERE name = $1: removes the row if there is one. */
  function Delete(c: Contents, name: string): (r: Contents)
    ensures r.rows.Keys == c.rows.Keys - {name}
    ensures forall n :: n in r.rows ==> r.rows[n] == c.rows[n]
    ensures r.journal == c.journal + [Deleted(name)]
  {
    Contents(c.rows - {name}, c.journal + [Deleted(name)])
  }

  /** `DBTransaction.transaction`: always rejects, so a transaction cannot be nested. */
  function NestedTransaction(): (r: Result<(), Fault>)
    ensures r.Failure? && r.error == TransactionInTransaction
  {
    Failure(TransactionInTransaction)
  }

  /**
   * The database behind the pool. `saved` is the snapshot BEGIN takes and ROLLBACK restores;
   * `control` records the transaction statements issued and the client's release.
   */
  class Store {
    var rows: map<string, Row>
    var journal: seq<Effect>
    var control: seq<Control>
    var saved: Option<Contents>
    const broken: set<string>

    function Current(): Contents
      reads this
    {
      Contents(rows, journal)
    }

    constructor (rows: map<string, Row>, broken: set<string>)
      ensures this.rows == rows && journal == [] && control == [] && saved == None && this.broken == broken
    {
      this.rows, journal, control, saved, this.broken := rows, [], [], None, broken;
    }

    /** `q(script)`. */
    method Run(script: string) returns (fault: Option<Fault>)
      modifies this`rows, this`journal
      ensures var r := Exec(old(Current()), broken, script);
              (r.Success? ==> fault == None && Current() == r.value) &&
              (r.Failure? ==> fault == Some(r.error) && Current() == old(Current()))
    {
      if script in broken {
        fault := Some(ScriptFailed(script));
      } else {
        journal := journal + [Ran(script)];
        fault := None;
      }
    }

    /** `q('INSERT INTO … VALUES (…)', […])`. */
    method InsertRow(name: string, row: Row) returns (fault: Option<Fault>)
      modifies this`rows, this`journal
      ensures var r := Insert(old(Current()), name, row);
              (r.Success? ==> fault == None && Current() == r.value) &&
              (r.Failure? ==> fault == Some(r.error) && Current() == old(Current()))
    {
      if name in rows {
        fault := Some(DuplicateName(name));
      } else {
        rows := rows[name := row];
        journal := journal + [Inserted(name, row)];
        fault := None;
      }
    }

    /** `q('UPDATE … WHERE name = $1', […])`. */
    method UpdateRow(name: string, row: Row)
      modifies this`rows, this`journal
      ensures Current() == Update(old(Current()), name, row)
    {
      if name in rows {
        rows := rows[name := row];
      }
      journal := journal + [Updated(name, row)];
    }

    /** `q('DELETE FROM … WHERE name = $1', [name])`. */
    method DeleteRow(name: string)
      modifies this`rows, this`journal
      ensures Current() == Delete(old(Current()), name)
    {
      rows := rows - {name};
      journal := journal + [Deleted(name)];
    }

    /** BEGIN: the state a later ROLLBACK returns to. */
    method Begin()
      modifies this`saved, this`control
      ensures saved == Some(Current()) && control == old(control) + [Control.Begin]
      ensures Current() == old(Current())
    {
      saved := Some(Current());
      control := control + [Control.Begin];
    }

    /** COMMIT: what the transaction did stays. */
    method Commit()
      modifies this`saved, this`control
      ensures saved == None && control == old(control) + [Control.Commit]
      ensures Current() == old(Current())
    {
      saved := None;
      control := control + [Control.Commit];
    }

    /** ROLLBACK: back to the state at BEGIN. */
    method Rollback()
      modifies this`rows, this`journal, this`saved, this`control
      ensures old(saved).Some? ==> Current() == old(saved).value
      ensures old(saved).None? ==> Current() == old(Current())
      ensures saved == None && control == old(control) + [Control.Rollback]
    {
      if saved.Some? {
        rows, journal := saved.value.rows, saved.value.journal;
      }
      saved := None;
      control := control + [Control.Rollback];
    }

    /** `client.release()`. */
    method Release()
      modifies this`control
      ensures control == old(control) + [Control.Release]
      ensures saved == old(saved) && Current() == old(Current())
    {
      control := control + [Control.Release];
    }
  }
}
