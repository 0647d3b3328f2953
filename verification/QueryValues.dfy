/** What graph queries are, as values, and the text the query engine is sent for them. */
module QueryValues {
  import opened DecimalText

  datatype AttributeValue =
    | StringVal(text: string)
    | BoolVal(b: bool)
    | IntVal(n: int)
    | Greater(n: int)
    | GreaterEqual(n: int)
    | LessThan(n: int)
    | LessThanEqual(n: int)
    | IsNone(b: bool)
    | IsIn(texts: seq<string>)
    | NotIn(texts: seq<string>)

  datatype Attribute = Attribute(key: string, value: AttributeValue)

  datatype Kind = Node | In | Out

  datatype PathItem = PathItem(kind: Kind, attributes: seq<Attribute>)

  /** The only operation on a match so far. */
  datatype MatchItem = Distinct(names: seq<string>)

  datatype Query =
    | PathValue(items: seq<PathItem>, wheres: seq<string>, optional: bool)
    | MatchValue(matches: seq<Query>, operations: seq<MatchItem>, wheres: seq<string>, optional: bool)
    | RawValue(text: string, optional: bool)

  /** strings.Join. */
  function Separated(texts: seq<string>, sep: string): string {
    if texts == [] then "" else
    if |texts| == 1 then texts[0] else
    Separated(texts[..|texts| - 1], sep) + sep + texts[|texts| - 1]
  }

  function Quoted(texts: seq<string>): string {
    if texts == [] then "[]" else "['" + Separated(texts, "','") + "']"
  }

  function ValueText(v: AttributeValue): string {
    match v
    case StringVal(text) => "'" + text + "'"
    case BoolVal(b) => if b then "True" else "False"
    case IntVal(n) => IntText(n)
    case Greater(n) => "gt(" + IntText(n) + ")"
    case GreaterEqual(n) => "ge(" + IntText(n) + ")"
    case LessThan(n) => "lt(" + IntText(n) + ")"
    case LessThanEqual(n) => "le(" + IntText(n) + ")"
    case IsNone(b) => if b then "is_none()" else "not_none()"
    case IsIn(texts) => "is_in(" + Quoted(texts) + ")"
    case NotIn(texts) => "not_in(" + Quoted(texts) + ")"
  }

  function AttributeText(a: Attribute): string {
    a.key + "=" + ValueText(a.value)
  }

  function AttributeTexts(attributes: seq<Attribute>): seq<string> {
    seq(|attributes|, i requires 0 <= i < |attributes| => AttributeText(attributes[i]))
  }

  function KindText(kind: Kind): string {
    match kind
    case Node => "node"
    case In => "in_"
    case Out => "out"
  }

  function PathItemText(item: PathItem): string {
    KindText(item.kind) + "(" + Separated(AttributeTexts(item.attributes), ",") + ")"
  }

  function MatchItemText(item: MatchItem): string {
    "distinct(" + Quoted(item.names) + ")"
  }

  function PathTexts(items: seq<PathItem>): seq<string> {
    seq(|items|, i requires 0 <= i < |items| => PathItemText(items[i]))
  }

  /** Each operation with a dot before it. */
  function OperationsText(operations: seq<MatchItem>): string {
    if operations == [] then ""
    else OperationsText(operations[..|operations| - 1]) + ("." + MatchItemText(operations[|operations| - 1]))
  }

  function WheresText(wheres: seq<string>): string {
    if wheres == [] then ""
    else WheresText(wheres[..|wheres| - 1]) + (".where(" + wheres[|wheres| - 1] + ")")
  }

  function Wrapped(text: string, optional: bool): string {
    if optional then "optional(" + text + ")" else text
  }

  function Text(q: Query): string {
    match q
    case PathValue(items, wheres, optional) =>
      Wrapped(Separated(PathTexts(items), ".") + WheresText(wheres), optional)
    case MatchValue(matches, operations, wheres, optional) =>
      Wrapped("match(" + Separated(Texts(matches), ",") + ")" + OperationsText(operations) + WheresText(wheres),
              optional)
    case RawValue(text, optional) => Wrapped(text, optional)
  }

  function Texts(queries: seq<Query>): (texts: seq<string>)
    ensures |texts| == |queries|
    ensures forall i :: 0 <= i < |queries| ==> texts[i] == Text(queries[i])
  {
    if queries == [] then [] else
    assert queries[|queries| - 1] in queries;
    Texts(queries[..|queries| - 1]) + [Text(queries[|queries| - 1])]
  }

  // ----- queries that refer to each other -----

  /** A query as its own fields have it; a match names the queries it holds by their numbers. */
  datatype Def =
    | PathDef(items: seq<PathItem>, wheres: seq<string>, optional: bool)
    | MatchDef(matches: seq<nat>, operations: seq<MatchItem>, wheres: seq<string>, optional: bool)
    | RawDef(text: string, optional: bool)

  /** The calls of the builder, on queries numbered in the order of their creation. */
  datatype Call =
    | NewPath
    | NewMatch
    | NewRaw
    | Add(on: nat, item: PathItem)
    | Where(on: nat, where: string)
    | AddDistinct(on: nat, names: seq<string>)
    | Hold(on: nat, held: nat)
    | HoldOptional(on: nat, held: nat)
    | SetQuery(on: nat, query: string)

  /** The receiver has the type that the method is defined on, and what it is given exists. */
  predicate Applies(defs: seq<Def>, call: Call) {
    match call
    case Add(i, _) => i < |defs| && defs[i].PathDef?
    case Where(i, _) => i < |defs| && !defs[i].RawDef?
    case AddDistinct(i, _) => i < |defs| && defs[i].MatchDef?
    case Hold(i, j) => i < |defs| && defs[i].MatchDef? && j < |defs|
    case HoldOptional(i, j) => i < |defs| && defs[i].MatchDef? && j < |defs|
    case SetQuery(i, _) => i < |defs| && defs[i].RawDef?
    case _ => true
  }

  function MadeOptional(def: Def): Def {
    match def
    case PathDef(items, wheres, _) => PathDef(items, wheres, true)
    case MatchDef(matches, operations, wheres, _) => MatchDef(matches, operations, wheres, true)
    case RawDef(text, _) => RawDef(text, true)
  }

  function WithWhere(def: Def, where: string): Def {
    match def
    case PathDef(items, wheres, optional) => PathDef(items, wheres + [where], optional)
    case MatchDef(matches, operations, wheres, optional) => MatchDef(matches, operations, wheres + [where], optional)
    case RawDef(_, _) => def
  }

  function WithItem(def: Def, item: PathItem): Def
    requires def.PathDef?
  {
    PathDef(def.items + [item], def.wheres, def.optional)
  }

  function WithOperation(def: Def, operation: MatchItem): Def
    requires def.MatchDef?
  {
    MatchDef(def.matches, def.operations + [operation], def.wheres, def.optional)
  }

  function Holding(def: Def, held: nat): Def
    requires def.MatchDef?
  {
    MatchDef(def.matches + [held], def.operations, def.wheres, def.optional)
  }

  function After(defs: seq<Def>, call: Call): seq<Def>
    requires Applies(defs, call)
  {
    match call
    case NewPath => defs + [PathDef([], [], false)]
    case NewMatch => defs + [MatchDef([], [], [], false)]
    case NewRaw => defs + [RawDef("", false)]
    case Add(i, item) => defs[i := WithItem(defs[i], item)]
    case Where(i, where) => defs[i := WithWhere(defs[i], where)]
    case AddDistinct(i, names) => defs[i := WithOperation(defs[i], Distinct(names))]
    case Hold(i, j) => defs[i := Holding(defs[i], j)]
    case HoldOptional(i, j) =>
      var marked := defs[j := MadeOptional(defs[j])];
      marked[i := Holding(marked[i], j)]
    case SetQuery(i, query) => defs[i := RawDef(query, defs[i].optional)]
  }

  predicate IsProgram(calls: seq<Call>)
    decreases |calls|, 0
  {
    calls == [] || (IsProgram(calls[..|calls| - 1]) && Applies(AfterAll(calls[..|calls| - 1]), calls[|calls| - 1]))
  }

  function AfterAll(calls: seq<Call>): seq<Def>
    requires IsProgram(calls)
    decreases |calls|, 1
  {
    if calls == [] then [] else After(AfterAll(calls[..|calls| - 1]), calls[|calls| - 1])
  }

  /** The query holds others no more than so deep, and so never itself. */
  predicate Nested(defs: seq<Def>, i: nat, depth: nat)
    decreases depth
  {
    i < |defs| && depth > 0
    && (defs[i].MatchDef? ==> forall j <- defs[i].matches :: Nested(defs, j, depth - 1))
  }

  function Unfold(defs: seq<Def>, i: nat, depth: nat): Query
    requires Nested(defs, i, depth)
    decreases depth, 0
  {
    match defs[i]
    case PathDef(items, wheres, optional) => PathValue(items, wheres, optional)
    case MatchDef(matches, operations, wheres, optional) =>
      MatchValue(UnfoldAll(defs, matches, depth - 1), operations, wheres, optional)
    case RawDef(text, optional) => RawValue(text, optional)
  }

  function UnfoldAll(defs: seq<Def>, js: seq<nat>, depth: nat): (queries: seq<Query>)
    requires forall j <- js :: Nested(defs, j, depth)
    ensures |queries| == |js|
    ensures forall k :: 0 <= k < |js| ==> queries[k] == Unfold(defs, js[k], depth)
    decreases depth, |js| + 1
  {
    if js == [] then [] else
    assert js[|js| - 1] in js;
    UnfoldAll(defs, js[..|js| - 1], depth) + [Unfold(defs, js[|js| - 1], depth)]
  }

  /** How deep one looks makes no difference, if it is deep enough. */
  lemma {:induction false} DepthIsImmaterial(defs: seq<Def>, i: nat, depth: nat, more: nat)
    requires Nested(defs, i, depth) && depth <= more
    ensures Nested(defs, i, more) && Unfold(defs, i, more) == Unfold(defs, i, depth)
    decreases depth
  {
    if defs[i].MatchDef? {
      var js := defs[i].matches;
      forall k | 0 <= k < |js|
        ensures Nested(defs, js[k], more - 1)
        ensures Nested(defs, js[k], depth - 1) && Unfold(defs, js[k], more - 1) == Unfold(defs, js[k], depth - 1)
      {
        assert js[k] in js;
        DepthIsImmaterial(defs, js[k], depth - 1, more - 1);
      }
      assert forall j <- js :: Nested(defs, j, more - 1);
      assert UnfoldAll(defs, js, more - 1) == UnfoldAll(defs, js, depth - 1);
    }
  }

  // ----- what calls on a query add up to -----

  /** What one call gives to query i. */
  function ItemOf(call: Call, i: nat): seq<PathItem> {
    if call.Add? && call.on == i then [call.item] else []
  }

  function WhereOf(call: Call, i: nat): seq<string> {
    if call.Where? && call.on == i then [call.where] else []
  }

  function OperationOf(call: Call, i: nat): seq<MatchItem> {
    if call.AddDistinct? && call.on == i then [Distinct(call.names)] else []
  }

  function HeldIn(call: Call, i: nat): seq<nat> {
    if (call.Hold? || call.HoldOptional?) && call.on == i then [call.held] else []
  }

  predicate MakesOptional(call: Call, i: nat) {
    call.HoldOptional? && call.held == i
  }

  /** And all the calls, in their order. */
  function ItemsFor(calls: seq<Call>, i: nat): seq<PathItem> {
    if calls == [] then [] else ItemsFor(calls[..|calls| - 1], i) + ItemOf(calls[|calls| - 1], i)
  }

  function WheresFor(calls: seq<Call>, i: nat): seq<string> {
    if calls == [] then [] else WheresFor(calls[..|calls| - 1], i) + WhereOf(calls[|calls| - 1], i)
  }

  function OperationsFor(calls: seq<Call>, i: nat): seq<MatchItem> {
    if calls == [] then [] else OperationsFor(calls[..|calls| - 1], i) + OperationOf(calls[|calls| - 1], i)
  }

  function HeldBy(calls: seq<Call>, i: nat): seq<nat> {
    if calls == [] then [] else HeldBy(calls[..|calls| - 1], i) + HeldIn(calls[|calls| - 1], i)
  }

  predicate HeldOptionally(calls: seq<Call>, i: nat) {
    exists call <- calls :: MakesOptional(call, i)
  }

  /** The query has all that is listed of what its kind can have. */
  predicate Has(def: Def, items: seq<PathItem>, wheres: seq<string>, operations: seq<MatchItem>, held: seq<nat>,
                optional: bool)
  {
    def.optional == optional
    && match def
       case PathDef(has, where, _) => has == items && where == wheres
       case MatchDef(matches, has, where, _) => matches == held && has == operations && where == wheres
       case RawDef(_, _) => true
  }

  lemma CallAdds(defs: seq<Def>, call: Call, i: nat, items: seq<PathItem>, wheres: seq<string>,
                 operations: seq<MatchItem>, held: seq<nat>, optional: bool)
    requires Applies(defs, call) && i < |defs| && Has(defs[i], items, wheres, operations, held, optional)
    ensures i < |After(defs, call)|
    ensures Has(After(defs, call)[i], items + ItemOf(call, i), wheres + WhereOf(call, i),
                operations + OperationOf(call, i), held + HeldIn(call, i), optional || MakesOptional(call, i))
  {
  }

  lemma CallCreates(defs: seq<Def>, call: Call, i: nat)
    requires Applies(defs, call) && |defs| <= i < |After(defs, call)|
    ensures Has(After(defs, call)[i], ItemOf(call, i), WhereOf(call, i), OperationOf(call, i), HeldIn(call, i),
                MakesOptional(call, i))
  {
  }

  lemma CallsGrow(defs: seq<Def>, call: Call)
    requires Applies(defs, call)
    ensures |After(defs, call)| >= |defs|
  {
  }

  lemma {:induction false} NoCallsBeforeCreation(calls: seq<Call>, i: nat)
    requires IsProgram(calls) && i >= |AfterAll(calls)|
    ensures ItemsFor(calls, i) == [] && WheresFor(calls, i) == []
    ensures OperationsFor(calls, i) == [] && HeldBy(calls, i) == []
    ensures !HeldOptionally(calls, i)
  {
    if calls != [] {
      var before, last := calls[..|calls| - 1], calls[|calls| - 1];
      CallsGrow(AfterAll(before), last);
      NoCallsBeforeCreation(before, i);
      assert calls == before + [last];
    }
  }

  lemma OptionalAtLast(before: seq<Call>, last: Call, i: nat)
    ensures HeldOptionally(before + [last], i) <==> HeldOptionally(before, i) || MakesOptional(last, i)
  {
    assert forall call :: call in before + [last] <==> call in before || call == last;
  }

  /** After any calls on any number of queries, each has what was added to it, kind by kind and in call
      order, whether before or after it was itself put into another; and it is optional exactly when
      some match has taken it as optional. */
  lemma {:induction false} CallOrder(calls: seq<Call>, i: nat)
    requires IsProgram(calls) && i < |AfterAll(calls)|
    ensures Has(AfterAll(calls)[i], ItemsFor(calls, i), WheresFor(calls, i), OperationsFor(calls, i), HeldBy(calls, i),
                HeldOptionally(calls, i))
  {
    var before, last := calls[..|calls| - 1], calls[|calls| - 1];
    assert calls == before + [last];
    OptionalAtLast(before, last, i);
    if i < |AfterAll(before)| {
      CallOrder(before, i);
      CallAdds(AfterAll(before), last, i, ItemsFor(before, i), WheresFor(before, i), OperationsFor(before, i),
               HeldBy(before, i), HeldOptionally(before, i));
    } else {
      NoCallsBeforeCreation(before, i);
      CallCreates(AfterAll(before), last, i);
    }
  }

  /** So a match's text is made of the texts that the queries it holds have in the end, in the order in
      which they were put in. */
  lemma MatchText(calls: seq<Call>, i: nat, depth: nat)
    requires IsProgram(calls) && i < |AfterAll(calls)| && AfterAll(calls)[i].MatchDef?
    requires Nested(AfterAll(calls), i, depth)
    ensures forall j <- HeldBy(calls, i) :: Nested(AfterAll(calls), j, depth - 1)
    ensures Text(Unfold(AfterAll(calls), i, depth))
         == Wrapped("match(" + Separated(Texts(UnfoldAll(AfterAll(calls), HeldBy(calls, i), depth - 1)), ",") + ")"
                    + OperationsText(OperationsFor(calls, i)) + WheresText(WheresFor(calls, i)),
                    HeldOptionally(calls, i))
  {
    CallOrder(calls, i);
  }

  // ----- the texts, spelled out -----

  /** What the engine is sent for each kind of value. */
  lemma ValuesSpelled(text: string, n: int)
    ensures ValueText(StringVal(text)) == "'" + text + "'"
    ensures ValueText(BoolVal(true)) == "True" && ValueText(BoolVal(false)) == "False"
    ensures ValueText(IntVal(n)) == IntText(n)
    ensures ValueText(IsNone(true)) == "is_none()" && ValueText(IsNone(false)) == "not_none()"
  {
  }

  lemma ComparisonsSpelled(n: int)
    ensures ValueText(Greater(n)) == "gt(" + IntText(n) + ")"
    ensures ValueText(GreaterEqual(n)) == "ge(" + IntText(n) + ")"
    ensures ValueText(LessThan(n)) == "lt(" + IntText(n) + ")"
    ensures ValueText(LessThanEqual(n)) == "le(" + IntText(n) + ")"
  {
  }

  /** A list without texts has empty brackets; otherwise each text is in quotes, with commas between. */
  lemma ListsSpelled(texts: seq<string>, text: string)
    ensures Quoted([]) == "[]" && Quoted([text]) == "['" + text + "']"
    ensures texts != [] ==> Quoted(texts + [text]) == Quoted(texts)[..|Quoted(texts)| - 1] + ",'" + text + "']"
    ensures ValueText(IsIn(texts)) == "is_in(" + Quoted(texts) + ")"
    ensures ValueText(NotIn(texts)) == "not_in(" + Quoted(texts) + ")"
    ensures MatchItemText(Distinct(texts)) == "distinct(" + Quoted(texts) + ")"
  {
    if texts != [] {
      OneMoreSeparated(texts, text, "','");
      var before := Separated(texts, "','");
      assert Quoted(texts)[..|Quoted(texts)| - 1] == "['" + before + "'";
      assert "['" + (before + "','" + text) + "']" == ("['" + before + "'") + ",'" + text + "']";
    }
  }

  /** A separator before each text but the first. */
  lemma OneMoreSeparated(texts: seq<string>, text: string, sep: string)
    ensures Separated(texts + [text], sep) == (if texts == [] then "" else Separated(texts, sep) + sep) + text
  {
    assert (texts + [text])[..|texts|] == texts;
  }

  /** An element is its kind and, in brackets, its attributes, with commas between. */
  lemma ElementsSpelled(attributes: seq<Attribute>, k: nat)
    ensures PathItemText(PathItem(Node, attributes)) == "node" + "(" + Separated(AttributeTexts(attributes), ",") + ")"
    ensures PathItemText(PathItem(In, attributes)) == "in_" + "(" + Separated(AttributeTexts(attributes), ",") + ")"
    ensures PathItemText(PathItem(Out, attributes)) == "out" + "(" + Separated(AttributeTexts(attributes), ",") + ")"
    ensures |AttributeTexts(attributes)| == |attributes|
    ensures k < |attributes| ==>
              AttributeTexts(attributes)[k] == attributes[k].key + "=" + ValueText(attributes[k].value)
  {
  }

  /** A path has a dot before each element but the first. */
  lemma PathSpelled(items: seq<PathItem>, item: PathItem)
    ensures Text(PathValue([], [], false)) == ""
    ensures Text(PathValue(items + [item], [], false))
         == (if items == [] then "" else Text(PathValue(items, [], false)) + ".") + PathItemText(item)
  {
    assert PathTexts(items + [item]) == PathTexts(items) + [PathItemText(item)];
    OneMoreSeparated(PathTexts(items), PathItemText(item), ".");
    assert Separated(PathTexts(items), ".") + "" == Separated(PathTexts(items), ".");
  }

  /** A match has its queries in brackets, with commas between, and each operation after a dot. */
  lemma MatchSpelled(matches: seq<Query>, operations: seq<MatchItem>, names: seq<string>)
    ensures Text(MatchValue(matches, [], [], false)) == "match(" + Separated(Texts(matches), ",") + ")"
    ensures Text(MatchValue(matches, operations + [Distinct(names)], [], false))
         == Text(MatchValue(matches, operations, [], false)) + ("." + MatchItemText(Distinct(names)))
  {
    assert (operations + [Distinct(names)])[..|operations|] == operations;
    var before := "match(" + Separated(Texts(matches), ",") + ")";
    assert before + "" == before;
  }

  /** Where clauses follow, and an optional query is wrapped. */
  lemma ClausesSpelled(items: seq<PathItem>, matches: seq<Query>, operations: seq<MatchItem>, wheres: seq<string>,
                       where: string)
    ensures Text(PathValue(items, wheres + [where], false))
         == Text(PathValue(items, wheres, false)) + (".where(" + where + ")")
    ensures Text(MatchValue(matches, operations, wheres + [where], false))
         == Text(MatchValue(matches, operations, wheres, false)) + (".where(" + where + ")")
    ensures Text(PathValue(items, wheres, true)) == "optional(" + Text(PathValue(items, wheres, false)) + ")"
    ensures Text(MatchValue(matches, operations, wheres, true))
         == "optional(" + Text(MatchValue(matches, operations, wheres, false)) + ")"
    ensures Text(RawValue(where, false)) == where && Text(RawValue(where, true)) == "optional(" + where + ")"
  {
    assert (wheres + [where])[..|wheres|] == wheres;
  }
}
