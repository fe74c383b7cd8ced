/** The Redis store the two distributed workers share, as a value: the
    `ready` key and the `todo`, `live` and `done` lists of task labels, with
    the few list commands the workers issue. */
module RedisStore {
  import opened Wrappers

  /** `ready` is None when the key is unset (GET yields null); Redis keeps
      every value as a string. */
  datatype Store = Store(ready: Option<string>, todo: seq<string>, live: seq<string>, done: seq<string>)

  /** A task module as `require` returns it: its `label` ("" when missing
      or empty) and its `deps` (None when the field is missing). Its `run`
      function is not modelled; what calling it produced is an input. */
  datatype TaskModule = TaskModule(taskLabel: string, deps: Option<seq<string>>)

  /** What `task.run()` produced: the value it returned or resolved with
      (None for `undefined` or a non-string), or the message of the error it
      threw or rejected with. */
  datatype RunResult = Returned(value: Option<string>) | Threw(message: string)

  /** JavaScript truthiness of a GET or LPOP reply: null and "" are falsy,
      every other string is truthy (including "false" and "0"). */
  predicate Truthy(v: Option<string>) {
    v.Some? && v.value != ""
  }

  /** LPOP: the head of the list, or null on an empty list. Null comes
      exactly from an empty list; pushing a popped value back on the left
      restores the list; the pop loses no value. */
  function LPop(list: seq<string>): (r: (Option<string>, seq<string>))
    ensures r.0.None? <==> list == []
    ensures r.0.None? ==> r.1 == list
    ensures r.0.Some? ==> [r.0.value] + r.1 == list
    ensures multiset(list) == multiset(r.1) + (if r.0.Some? then multiset{r.0.value} else multiset{})
  {
    if list == [] then (None, list) else (Some(list[0]), list[1..])
  }

  /** LREM with count 0: remove every occurrence of `x`, keeping the order
      of the rest. */
  function RemoveAll(list: seq<string>, x: string): (r: seq<string>)
    ensures x !in r
    ensures forall y :: y != x ==> multiset(r)[y] == multiset(list)[y]
    ensures |r| + multiset(list)[x] == |list|
  {
    if list == [] then []
    else
      var rest := RemoveAll(list[1..], x);
      assert list == [list[0]] + list[1..];
      if list[0] == x then rest else [list[0]] + rest
  }

  /** LREM works element by element: on one element it keeps it or drops
      it, and on a concatenation it handles each part on its own. Together
      these fix the result and say that the other labels keep their order. */
  lemma {:induction false} RemoveAllConcat(a: seq<string>, b: seq<string>, x: string)
    ensures RemoveAll(a + b, x) == RemoveAll(a, x) + RemoveAll(b, x)
  {
    if a == [] {
      assert a + b == b;
    } else {
      assert (a + b)[1..] == a[1..] + b;
      assert (a + b)[0] == a[0];
      RemoveAllConcat(a[1..], b, x);
    }
  }

  lemma RemoveAllSingle(y: string, x: string)
    ensures RemoveAll([y], x) == if y == x then [] else [y]
  {
    assert [y][1..] == [];
  }

  /** LREM removes nothing when the value is absent. */
  lemma {:induction false} RemoveAllAbsent(list: seq<string>, x: string)
    requires x !in list
    ensures RemoveAll(list, x) == list
  {
    if list != [] {
      RemoveAllAbsent(list[1..], x);
    }
  }

  /** Removing every `x` after appending one: the same as removing every
      `x` from the original list. */
  lemma {:induction false} RemoveAllAppended(list: seq<string>, x: string)
    ensures RemoveAll(list + [x], x) == RemoveAll(list, x)
  {
    if list == [] {
      assert [x][1..] == [];
    } else {
      assert (list + [x])[1..] == list[1..] + [x];
      RemoveAllAppended(list[1..], x);
    }
  }

  /** Whether every dependency occurs in the `done` list. */
  function Every(deps: seq<string>, done: seq<string>): (ok: bool)
    ensures ok <==> forall d :: d in deps ==> d in done
  {
    if deps == [] then true
    else
      assert forall d :: d in deps <==> d == deps[0] || d in deps[1..];
      deps[0] in done && Every(deps[1..], done)
  }

  /** The labels over the three lists, as a multiset. */
  function Pool(s: Store): multiset<string> {
    multiset(s.todo) + multiset(s.live) + multiset(s.done)
  }
}
