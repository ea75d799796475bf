/**
 * The two view variants the reducer writes to, the primitive operations it
 * (or a custom action) performs on them, and the labels recorded when a node
 * is dispatched.
 */
module Views {
  import opened Values

  /** `viewType` of the options: which store `_openView` built. */
  datatype ViewType = Default | Hyperdrive

  /**
   * Default view: an append-only core, seen as the sequence of its entries.
   * Hyperdrive view: a path-to-content map.
   */
  datatype View = Log(entries: seq<Js>) | Drive(files: map<string, Js>)

  /** The mutations a view can be asked to perform. */
  datatype ViewOp =
    | Append(value: Js)      // core.append(value)
    | Put(path: string, content: Js)   // drive.put(path, content)
    | Del(path: string)      // drive.del(path)
    | Remove(entry: Js)      // view.del(record) on the default view, by structural match

  /** Whether the view was built for `viewType`: `_openView` always builds a matching one. */
  predicate Matches(v: View, vt: ViewType)
  {
    v.Drive? <==> vt == Hyperdrive
  }

  /**
   * The log without any entry equal to `e`: every other entry keeps its
   * number of occurrences, and `WithoutSplits` shows the order is kept.
   */
  function Without(entries: seq<Js>, e: Js): (r: seq<Js>)
    ensures e !in r
    ensures forall x :: x != e ==> multiset(r)[x] == multiset(entries)[x]
    ensures |r| == |entries| - multiset(entries)[e]
  {
    if entries == [] then []
    else
      assert entries == [entries[0]] + entries[1..];
      if entries[0] == e then Without(entries[1..], e)
      else [entries[0]] + Without(entries[1..], e)
  }

  /** A single entry survives exactly when it differs from `e`. */
  lemma WithoutOne(x: Js, e: Js)
    ensures Without([x], e) == (if x == e then [] else [x])
  {
    assert [x][1..] == [];
  }

  /**
   * Removal works entry by entry: it distributes over concatenation, so
   * with `WithoutOne` the surviving entries stay in their order.
   */
  lemma {:induction false} WithoutSplits(a: seq<Js>, b: seq<Js>, e: Js)
    ensures Without(a + b, e) == Without(a, e) + Without(b, e)
    decreases |a|
  {
    if a == [] {
      assert a + b == b;
    } else {
      assert (a + b)[0] == a[0];
      assert (a + b)[1..] == a[1..] + b;
      WithoutSplits(a[1..], b, e);
      if a[0] != e {
        calc {
          Without(a + b, e);
          [a[0]] + Without(a[1..] + b, e);
          [a[0]] + (Without(a[1..], e) + Without(b, e));
          ([a[0]] + Without(a[1..], e)) + Without(b, e);
        }
      }
    }
  }

  /** The two file maps agree on every path but `path`. */
  ghost predicate SameElsewhere(before: map<string, Js>, after: map<string, Js>, path: string)
  {
    forall p :: p != path ==> (p in after <==> p in before) && (p in before ==> after[p] == before[p])
  }

  /** One mutation. A method the view does not have throws, as calling `undefined` does. */
  function ApplyOp(v: View, op: ViewOp): (r: Result<View>)
    ensures r.Ok? ==> r.value.Drive? == v.Drive?
    ensures r.Ok? <==> (v.Log? <==> op.Append? || op.Remove?)
  {
    match (v, op)
    case (Log(es), Append(x)) => Ok(Log(es + [x]))
    case (Log(es), Remove(x)) => Ok(Log(Without(es, x)))
    case (Log(_), Put(_, _)) => Err(TypeError("view.put is not a function"))
    case (Log(_), Del(_)) => Err(TypeError("view.del is not a function"))
    case (Drive(fs), Put(p, c)) => Ok(Drive(fs[p := c]))
    case (Drive(fs), Del(p)) => Ok(Drive(fs - {p}))
    case (Drive(_), Append(_)) => Err(TypeError("view.append is not a function"))
    case (Drive(_), Remove(_)) => Err(TypeError("view.del expects a path"))
  }

  /** The view after a run of mutations, with the first failure if any; earlier mutations stay done. */
  function ApplyOps(v: View, ops: seq<ViewOp>): (r: (View, Option<Error>))
    ensures r.0.Drive? == v.Drive?
    decreases |ops|
  {
    if ops == [] then (v, None)
    else match ApplyOp(v, ops[0])
      case Err(e) => (v, Some(e))
      case Ok(v') => ApplyOps(v', ops[1..])
  }

  /** `view.get(path)` on the Hyperdrive view: the stored content, if any. */
  function Get(v: View, path: string): (r: Result<Option<Js>>)
    ensures r.Ok? <==> v.Drive?
    ensures v.Drive? ==> (r.value.Some? <==> path in v.files)
    ensures v.Drive? && path in v.files ==> r.value.value == v.files[path]
  {
    match v
    case Log(_) => Err(TypeError("view.get is not a function"))
    case Drive(fs) => Ok(if path in fs then Some(fs[path]) else None)
  }

  /**
   * A custom action registered under a type name: given the operation value
   * and the current view it either throws or asks for a run of mutations.
   */
  type Action = (Js, View) -> Result<seq<ViewOp>>

  /** The branch of the dispatch a node went down. */
  datatype Route =
    | InviteAdd
    | InviteDel
    | WriterAdd
    | WriterRemove
    | BlobPut
    | CustomAction(name: string, value: Js)
    | InheritedMember(name: string)   // a type naming an `Object.prototype` member of `actions`
    | AppendValue

  /** The four types the `switch` handles itself. */
  predicate IsBuiltin(t: Js)
  {
    t in {Str("add-invite"), Str("del-invite"), Str("add-writer"), Str("remove-writer")}
  }

  /** Whether `actions[type]` is truthy: a registered action, or a member inherited from `Object.prototype`. */
  predicate Found(actions: map<string, Action>, t: Js)
  {
    t.Str? && (t.s in actions || t.s in Inherited)
  }

  /**
   * The names a plain object such as `actions` inherits from
   * `Object.prototype`: looking one up finds a truthy value even when no
   * action of that name was registered.
   */
  const Inherited: set<string> := {
    "constructor", "hasOwnProperty", "isPrototypeOf", "propertyIsEnumerable",
    "toLocaleString", "toString", "valueOf", "__lookupGetter__", "__lookupSetter__",
    "__defineGetter__", "__defineSetter__", "__proto__"}

  /** The inherited members that first turn their argument into a property key. */
  const KeyConverting: set<string> := {"hasOwnProperty", "propertyIsEnumerable", "__lookupGetter__", "__lookupSetter__"}

  /**
   * Calling the inherited member with `(node.value, { view, base })`, on
   * `actions` whose own keys are `registered`: `__proto__` is an object, not
   * a function; the two definers insist on a function as second argument;
   * the key-converting members throw when the node value is an object whose
   * own `toString` (a plain value, never a function) hides the inherited
   * one, since no conversion to a primitive is left; `toLocaleString` calls
   * `actions.toString()`, which is a registered action when one is named
   * "toString", and that action, called without its value and context,
   * fails as soon as it reads them; `valueOf` returns `actions` itself,
   * which the dispatch awaits, and when an action is named "then" that makes
   * `actions` a thenable: the action is called with the promise's own
   * resolve and reject functions, calls neither, and the await never
   * settles. The other calls return a value nobody looks at and change
   * neither the view nor the writers.
   */
  function InheritedCall(name: string, value: Js, registered: set<string>): (r: Option<Error>)
    requires name in Inherited
    ensures r.Some? <==>
              || name in {"__proto__", "__defineGetter__", "__defineSetter__"}
              || (name in KeyConverting && value.Obj? && "toString" in value.fields)
              || (name == "toLocaleString" && "toString" in registered)
              || (name == "valueOf" && "then" in registered)
    ensures r.Some? ==> (r.value.Stalled? <==> name == "valueOf")
    ensures r.Some? ==> (r.value.TypeError? <==> name != "valueOf")
  {
    if name == "__proto__" then Some(TypeError("this.actions[type] is not a function"))
    else if name == "__defineGetter__" || name == "__defineSetter__" then Some(TypeError("Object.prototype." + name + ": expecting a function"))
    else if name in KeyConverting && value.Obj? && "toString" in value.fields then Some(TypeError("Cannot convert object to primitive value"))
    else if name == "toLocaleString" && "toString" in registered then Some(TypeError("Cannot destructure 'undefined' as it is undefined"))
    else if name == "valueOf" && "then" in registered then Some(Stalled("await of a thenable `actions` whose then never settles"))
    else None
  }

  /** What a batch did, in order: one entry per node dispatched, then the flush. */
  datatype Event = Dispatched(route: Route) | Flushed
}
