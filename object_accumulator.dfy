/** The `categoryCounts` accumulator as JavaScript evaluates it on a plain
    object literal `{}`: reading a missing key falls back to the properties
    every object inherits, and assigning a primitive to `__proto__` is ignored. */
module ObjectAccumulator {
  import opened Wrappers
  import opened Documents
  import opened Stats

  /** A property value of the accumulator: a number or a string. */
  datatype JsValue = Num(n: nat) | Text(s: string)

  /** Property names an object literal inherits from `Object.prototype`. */
  const InheritedNames: set<string> := {
    "constructor", "hasOwnProperty", "isPrototypeOf", "propertyIsEnumerable",
    "toLocaleString", "toString", "valueOf", "__defineGetter__",
    "__defineSetter__", "__lookupGetter__", "__lookupSetter__", "__proto__"
  }

  /** The text an inherited property turns into when `+` meets it. */
  function InheritedText(name: string): string {
    if name == "constructor" then "function Object() { [native code] }"
    else if name == "__proto__" then "[object Object]"
    else "function " + name + "() { [native code] }"
  }

  /** `acc[c]`: an own property, else an inherited one, else `undefined`. */
  function Lookup(acc: map<string, JsValue>, c: string): Option<JsValue> {
    if c in acc && c != "__proto__" then Some(acc[c])
    else if c in InheritedNames then Some(Text(InheritedText(c)))
    else None
  }

  /** `(x || 0) + 1`: a truthy string is concatenated with "1". */
  function Bump(x: Option<JsValue>): JsValue {
    match x
    case None => Num(1)
    case Some(Num(n)) => Num(n + 1)
    case Some(Text(s)) => if s == "" then Num(1) else Text(s + "1")
  }

  /** `acc[c] = x`; assigning a primitive to `__proto__` changes nothing. */
  function Assign(acc: map<string, JsValue>, c: string, x: JsValue): map<string, JsValue> {
    if c == "__proto__" then acc else acc[c := x]
  }

  /** The handler's `reduce` as written. */
  function CategoryCountsAsWritten(vs: seq<Vehicle>): map<string, JsValue> {
    if vs == [] then map[]
    else
      var acc := CategoryCountsAsWritten(vs[..|vs| - 1]);
      var c := vs[|vs| - 1].category;
      Assign(acc, c, Bump(Lookup(acc, c)))
  }

  /** The counts of `CategoryCounts`, as numbers. */
  function AsNumbers(m: map<string, nat>): map<string, JsValue> {
    map c | c in m :: Num(m[c])
  }

  /** For categories that are not inherited property names, the accumulator as
      written yields exactly the category counts. */
  lemma {:induction false} AsWrittenAgreesOnPlainNames(vs: seq<Vehicle>)
    requires forall v | v in vs :: v.category !in InheritedNames
    ensures CategoryCountsAsWritten(vs) == AsNumbers(CategoryCounts(vs))
  {
    if vs != [] {
      var vs', v := vs[..|vs| - 1], vs[|vs| - 1];
      assert vs == vs' + [v];
      assert forall x | x in vs' :: x in vs;
      assert v in vs;
      AsWrittenAgreesOnPlainNames(vs');
      PlainVehicleStep(vs', v);
    }
  }

  /** Appending a vehicle whose category is not inherited keeps the accumulator
      as written equal to the category counts. */
  lemma PlainVehicleStep(vs: seq<Vehicle>, v: Vehicle)
    requires v.category !in InheritedNames
    requires CategoryCountsAsWritten(vs) == AsNumbers(CategoryCounts(vs))
    ensures CategoryCountsAsWritten(vs + [v]) == AsNumbers(CategoryCounts(vs + [v]))
  {
    var m, c := CategoryCounts(vs), v.category;
    var x: nat := (if c in m then m[c] else 0) + 1;
    assert (vs + [v])[..|vs|] == vs;
    calc {
      CategoryCountsAsWritten(vs + [v]);
      Assign(AsNumbers(m), c, Bump(Lookup(AsNumbers(m), c)));
      { PlainStep(m, c); }
      AsNumbers(m[c := x]);
      { CategoryCountsStep(vs, v); }
      AsNumbers(CategoryCounts(vs + [v]));
    }
  }

  /** One step of the accumulator on a name that is not inherited. */
  lemma PlainStep(m: map<string, nat>, c: string)
    requires c !in InheritedNames
    ensures var x: nat := (if c in m then m[c] else 0) + 1;
            Assign(AsNumbers(m), c, Bump(Lookup(AsNumbers(m), c))) == AsNumbers(m[c := x])
  {
  }

  /** A vehicle whose category is "toString" gets a text, not the count 1. */
  lemma InheritedNameGarbled(v: Vehicle)
    requires v.category == "toString"
    ensures CategoryCountsAsWritten([v])["toString"] == Text("function toString() { [native code] }1")
    ensures CategoryCounts([v])["toString"] == 1
  {
    assert [v][..0] == [];
    var empty: map<string, JsValue> := map[];
    assert "toString" in InheritedNames;
    assert Lookup(empty, "toString") == Some(Text(InheritedText("toString")));
    assert InheritedText("toString") == "function toString() { [native code] }";
    assert CategoryCountsAsWritten([v]) == empty["toString" := Bump(Lookup(empty, "toString"))];
    assert Categories([v]) == {"toString"};
    assert CategoryCount([v], "toString") == 1;
  }

  /** A vehicle whose category is "__proto__" is not counted at all. */
  lemma ProtoCategoryDropped(v: Vehicle)
    requires v.category == "__proto__"
    ensures "__proto__" !in CategoryCountsAsWritten([v])
    ensures CategoryCounts([v])["__proto__"] == 1
  {
    assert [v][..0] == [];
    assert Categories([v]) == {"__proto__"};
    assert CategoryCount([v], "__proto__") == 1;
  }
}
