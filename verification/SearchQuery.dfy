/**
 A small relational semantics for the search queries: inner joins, a conjunction of comparisons with
 numbered placeholders, and grouping by the primary key of the first table.
 */
module SearchQuery {

  datatype Table = Agents | Commands | Actions | Signatures | Investigators

  datatype Field =
    | AgentId | AgentHeartbeat | AgentName | AgentVersion | AgentStatus
    | CommandId | CommandAgent | CommandAction
    | ActionId | ActionName | ActionFamily
    | SignatureAction | SignatureInvestigator
    | InvestigatorId | InvestigatorName | InvestigatorStatus | InvestigatorModified

  function TableOf(f: Field): Table {
    match f
    case AgentId | AgentHeartbeat | AgentName | AgentVersion | AgentStatus => Agents
    case CommandId | CommandAgent | CommandAction => Commands
    case ActionId | ActionName | ActionFamily => Actions
    case SignatureAction | SignatureInvestigator => Signatures
    case InvestigatorId | InvestigatorName | InvestigatorStatus | InvestigatorModified => Investigators
  }

  datatype Value = Num(n: int) | Text(s: string) | Null

  type Row = map<Field, Value>

  /** A column that was never set is NULL. */
  function Col(row: Row, f: Field): Value {
    if f in row then row[f] else Null
  }

  datatype Database = Database(agents: set<Row>, commands: set<Row>, actions: set<Row>, signatures: set<Row>,
                               investigators: set<Row>) {
    function Rows(t: Table): set<Row> {
      match t
      case Agents => agents
      case Commands => commands
      case Actions => actions
      case Signatures => signatures
      case Investigators => investigators
    }
  }

  datatype Op = AtMost | AtLeast | ILike

  datatype Token = And | Cmp(field: Field, op: Op, placeholder: nat)

  /** INNER JOIN table ON ( left = right ) */
  datatype Join = Join(table: Table, left: Field, right: Field)

  datatype Query = Query(from: Table, joins: seq<Join>, wher: seq<Token>, limitAt: nat, offsetAt: nat, vals: seq<Value>)

  // ----- scope and syntax -----

  function JoinedTables(from: Table, joins: seq<Join>): set<Table> {
    if joins == [] then {from}
    else JoinedTables(from, joins[..|joins| - 1]) + {joins[|joins| - 1].table}
  }

  /** A conjunction is a comparison, or a comparison, AND, and a conjunction. */
  predicate IsConjunction(tokens: seq<Token>)
    decreases |tokens|
  {
    && tokens != [] && tokens[0].Cmp?
    && (|tokens| > 1 ==> tokens[1].And? && IsConjunction(tokens[2..]))
  }

  function Comparisons(tokens: seq<Token>): (cmps: seq<Token>)
    ensures forall c | c in cmps :: c.Cmp?
    ensures forall i | 0 <= i < |cmps| :: cmps[i].Cmp?
  {
    if tokens == [] then []
    else (if tokens[0].Cmp? then [tokens[0]] else []) + Comparisons(tokens[1..])
  }

  /** An ON clause names only its own table and tables joined before, and no table is joined twice. */
  predicate InScope(from: Table, joins: seq<Join>) {
    if joins == [] then true
    else
      var before, j := joins[..|joins| - 1], joins[|joins| - 1];
      && InScope(from, before)
      && j.table !in JoinedTables(from, before)
      && {TableOf(j.left), TableOf(j.right)} <= JoinedTables(from, before) + {j.table}
  }

  /** The statement can be prepared and executed: its WHERE clause parses, every table named in an ON
      clause or in the WHERE clause is joined by then, and the placeholders, limit and offset included,
      are $1 to $n in order with a value each. */
  ghost predicate Executable(q: Query) {
    && IsConjunction(q.wher)
    && InScope(q.from, q.joins)
    && (forall c | c in Comparisons(q.wher) :: TableOf(c.field) in JoinedTables(q.from, q.joins))
    && (forall i | 0 <= i < |Comparisons(q.wher)| :: Comparisons(q.wher)[i].placeholder == i + 1)
    && q.limitAt == |Comparisons(q.wher)| + 1 && q.offsetAt == q.limitAt + 1
    && |q.vals| == q.offsetAt
  }

  // ----- evaluation -----

  /** One row from each joined table. */
  type Tuple = map<Table, Row>

  ghost predicate IsJoined(db: Database, from: Table, joins: seq<Join>, t: Tuple) {
    && t.Keys == JoinedTables(from, joins)
    && (forall table | table in t :: t[table] in db.Rows(table))
    && forall i | 0 <= i < |joins| :: OnHolds(joins[i], t)
  }

  predicate OnHolds(j: Join, t: Tuple) {
    && TableOf(j.left) in t && TableOf(j.right) in t
    && Equal(Col(t[TableOf(j.left)], j.left), Col(t[TableOf(j.right)], j.right))
  }

  /** SQL equality: NULL equals nothing. */
  predicate Equal(a: Value, b: Value) {
    a == b && a != Null
  }

  predicate Compares(like: (string, string) -> bool, op: Op, column: Value, v: Value) {
    match op
    case AtMost => column.Num? && v.Num? && column.n <= v.n
    case AtLeast => column.Num? && v.Num? && column.n >= v.n
    case ILike => column.Text? && v.Text? && like(column.s, v.s)
  }

  predicate Satisfies(like: (string, string) -> bool, cmp: Token, vals: seq<Value>, t: Tuple)
    requires cmp.Cmp?
  {
    && 1 <= cmp.placeholder <= |vals|
    && TableOf(cmp.field) in t
    && Compares(like, cmp.op, Col(t[TableOf(cmp.field)], cmp.field), vals[cmp.placeholder - 1])
  }

  /** Whether a row of the first table is in the answer, before LIMIT and OFFSET. */
  ghost predicate Answers(q: Query, like: (string, string) -> bool, db: Database, row: Row) {
    exists t: Tuple ::
      && IsJoined(db, q.from, q.joins, t) && q.from in t && t[q.from] == row
      && forall c | c in Comparisons(q.wher) :: Satisfies(like, c, q.vals, t)
  }
}
