/** The parts of the Python runtime that the modelled core leans on: the
    values that travel in event payloads, the exceptions the core's
    operations can raise, `str.split`, and the ordering of `str` that the
    built-in `dir()` sorts attribute names by. */
module Python {

  datatype Option<T> = None | Some(value: T)

  /** A decoded payload value. `Tuple` is what `dict.items()` yields;
      dictionary keys are strings, as JSON objects have them. */
  datatype Value =
    | PyNone
    | Int(i: int)
    | Str(s: string)
    | Tuple(items: seq<Value>)
    | List(items: seq<Value>)
    | Dict(entries: map<string, Value>)

  /** The exceptions the modelled operations can raise. `HandlerError`
      stands for whatever an event handler itself raises. */
  datatype Exception = KeyError | TypeError | IndexError | HandlerError

  datatype Result<T> = Ok(value: T) | Raise(exc: Exception)

  /** Whether a value may be used as a dictionary key: lists and dicts are
      not hashable, and a tuple is hashable when all its items are. */
  predicate Hashable(v: Value)
  {
    match v
    case List(_) => false
    case Dict(_) => false
    case Tuple(items) => forall i | 0 <= i < |items| :: Hashable(items[i])
    case _ => true
  }

  /** `v[key]` for a string key: only a dict can be indexed by a string;
      every other value raises TypeError, a dict without the key KeyError. */
  function GetItem(v: Value, key: string): (r: Result<Value>)
    ensures r.Ok? <==> v.Dict? && key in v.entries
    ensures r.Ok? ==> r.value == v.entries[key]
    ensures r.Raise? ==> r.exc == (if v.Dict? then KeyError else TypeError)
  {
    match v
    case Dict(entries) => if key in entries then Ok(entries[key]) else Raise(KeyError)
    case _ => Raise(TypeError)
  }

  // ---------------------------------------------------------------------
  // str.split with an explicit one-character separator

  /** Position of the first occurrence of `c` in `s`. */
  function IndexOf(s: string, c: char): (i: nat)
    requires c in s
    ensures i < |s| && s[i] == c && c !in s[..i]
  {
    if s[0] == c then 0 else 1 + IndexOf(s[1..], c)
  }

  /** `sep.join(parts)`. */
  function Join(parts: seq<string>, sep: char): string
    requires |parts| >= 1
  {
    if |parts| == 1 then parts[0] else parts[0] + [sep] + Join(parts[1..], sep)
  }

  /** `s.split(sep)`: the pieces between occurrences of `sep`, empty pieces
      included. There is always at least one piece, no piece contains the
      separator, there are two or more pieces exactly when the separator
      occurs, and joining the pieces gives back the string. */
  function Split(s: string, sep: char): (parts: seq<string>)
    ensures |parts| >= 1
    ensures forall i | 0 <= i < |parts| :: sep !in parts[i]
    ensures |parts| >= 2 <==> sep in s
    ensures Join(parts, sep) == s
    decreases |s|
  {
    if sep !in s then [s]
    else
      var i := IndexOf(s, sep);
      var rest := Split(s[i + 1..], sep);
      assert s == s[..i] + [sep] + s[i + 1..];
      [s[..i]] + rest
  }

  /** Splitting is the inverse of joining pieces that do not contain the
      separator. */
  lemma {:induction false} SplitJoin(parts: seq<string>, sep: char)
    requires |parts| >= 1
    requires forall i | 0 <= i < |parts| :: sep !in parts[i]
    ensures Split(Join(parts, sep), sep) == parts
  {
    if |parts| > 1 {
      var s := Join(parts, sep);
      assert s == parts[0] + [sep] + Join(parts[1..], sep);
      assert sep in s by { assert s[|parts[0]|] == sep; }
      var p := |parts[0]|;
      assert forall j | 0 <= j < p :: s[j] == parts[0][j] && s[j] != sep;
      var i := IndexOf(s, sep);
      assert forall j | 0 <= j < i :: s[j] == s[..i][j] && s[j] != sep;
      assert i == p;
      assert s[..i] == parts[0];
      assert s[i + 1..] == Join(parts[1..], sep);
      SplitJoin(parts[1..], sep);
    }
  }

  /** `topic.split("/")[index]`, raising IndexError when the topic has too
      few segments. */
  function TopicSegment(topic: string, index: nat): (r: Result<string>)
    ensures r.Ok? <==> index < |Split(topic, '/')|
    ensures r.Ok? ==> '/' !in r.value && r.value == Split(topic, '/')[index]
    ensures r.Raise? ==> r.exc == IndexError
  {
    var parts := Split(topic, '/');
    if index < |parts| then Ok(parts[index]) else Raise(IndexError)
  }

  /** The second segment of `prefix + "/" + id` is `id` when neither part
      contains a slash. */
  lemma SecondSegment(prefix: string, id: string)
    requires '/' !in prefix && '/' !in id
    ensures TopicSegment(prefix + "/" + id, 1) == Ok(id)
  {
    assert Join([prefix, id], '/') == prefix + "/" + id;
    SplitJoin([prefix, id], '/');
  }

  // ---------------------------------------------------------------------
  // Ordering of str and the built-in dir()

  /** Python's `a < b` on strings: lexicographic by code point, a proper
      prefix coming first. */
  predicate Below(a: string, b: string)
  {
    |b| > 0 && (|a| == 0 || a[0] < b[0] || (a[0] == b[0] && Below(a[1..], b[1..])))
  }

  /** No string is below itself. */
  lemma {:induction false} BelowIrreflexive(a: string)
    ensures !Below(a, a)
  {
    if |a| > 0 {
      BelowIrreflexive(a[1..]);
    }
  }

  /** `<` on strings is transitive. */
  lemma {:induction false} BelowTransitive(a: string, b: string, c: string)
    requires Below(a, b) && Below(b, c)
    ensures Below(a, c)
  {
    if |a| > 0 && a[0] == b[0] && b[0] == c[0] {
      BelowTransitive(a[1..], b[1..], c[1..]);
    }
  }

  /** `<` on strings is a total order: of two different strings one is
      below the other. */
  lemma {:induction false} BelowTotal(a: string, b: string)
    requires a != b
    ensures Below(a, b) || Below(b, a)
  {
    if |a| > 0 && |b| > 0 && a[0] == b[0] {
      assert a == [a[0]] + a[1..] && b == [b[0]] + b[1..];
      BelowTotal(a[1..], b[1..]);
    }
  }

  /** Of two strings at most one is below the other. */
  lemma BelowAsymmetric(a: string, b: string)
    requires Below(a, b)
    ensures !Below(b, a)
  {
    if Below(b, a) {
      BelowTransitive(a, b, a);
      BelowIrreflexive(a);
    }
  }

  predicate StrictlySorted(names: seq<string>)
  {
    forall i, j | 0 <= i < j < |names| :: Below(names[i], names[j])
  }

  /** `k` is the smallest of `keys`. */
  predicate IsLeast(k: string, keys: set<string>)
  {
    k in keys && forall j | j in keys && j != k :: Below(k, j)
  }

  lemma {:induction false} LeastExists(keys: set<string>)
    requires keys != {}
    ensures exists k :: IsLeast(k, keys)
    decreases |keys|
  {
    var x :| x in keys;
    if keys != {x} {
      LeastExists(keys - {x});
      var m :| IsLeast(m, keys - {x});
      if Below(x, m) {
        forall j | j in keys && j != x ensures Below(x, j) {
          if j != m { BelowTransitive(x, m, j); }
        }
        assert IsLeast(x, keys);
      } else {
        BelowTotal(x, m);
        assert IsLeast(m, keys);
      }
    } else {
      assert IsLeast(x, keys);
    }
  }

  lemma LeastUnique(k1: string, k2: string, keys: set<string>)
    requires IsLeast(k1, keys) && IsLeast(k2, keys)
    ensures k1 == k2
  {
    if k1 != k2 {
      BelowAsymmetric(k1, k2);
    }
  }

  /** The sorted listing of a set of names: what `dir()` returns. */
  ghost function SortedNames(keys: set<string>): (names: seq<string>)
    ensures StrictlySorted(names)
    ensures |names| == |keys|
    ensures forall n :: n in names <==> n in keys
    decreases |keys|
  {
    if keys == {} then []
    else
      LeastExists(keys);
      var k :| IsLeast(k, keys);
      var rest := SortedNames(keys - {k});
      assert forall j | 0 <= j < |rest| :: rest[j] in keys - {k};
      [k] + rest
  }

  /** The first element of a non-empty list is one of its elements (kept
      as a lemma so that no index is checked on a path the caller's
      requires rule out). */
  lemma FirstIsMember(s: seq<string>)
    ensures s == [] || s[0] in s
  {
  }

  /** A strictly sorted sequence is determined by its elements. */
  lemma {:induction false} SortedUnique(a: seq<string>, b: seq<string>)
    requires StrictlySorted(a) && StrictlySorted(b)
    requires forall n :: n in a <==> n in b
    ensures a == b
  {
    if a == [] || b == [] {
      FirstIsMember(a);
      FirstIsMember(b);
    } else {
      var keys := set n | n in a;
      assert IsLeast(a[0], keys) by {
        forall n | n in keys && n != a[0] ensures Below(a[0], n) {
          var j :| 0 <= j < |a| && a[j] == n;
        }
      }
      assert IsLeast(b[0], keys) by {
        forall n | n in keys && n != b[0] ensures Below(b[0], n) {
          var j :| 0 <= j < |b| && b[j] == n;
        }
      }
      LeastUnique(a[0], b[0], keys);
      forall n ensures n in a[1..] <==> n in b[1..] {
        if n in a[1..] {
          var j :| 1 <= j < |a| && a[j] == n;
          BelowIrreflexive(a[0]);
          assert n != b[0];
          assert n in b;
        }
        if n in b[1..] {
          var j :| 1 <= j < |b| && b[j] == n;
          BelowIrreflexive(b[0]);
          assert n != a[0];
          assert n in a;
        }
      }
      SortedUnique(a[1..], b[1..]);
    }
  }

  /** The built-in `dir(target)`: the names of the target's attributes,
      sorted. */
  method Dir<A>(target: map<string, A>) returns (names: seq<string>)
    ensures names == SortedNames(target.Keys)
  {
    names := [];
    var rest := target.Keys;
    while rest != {}
      invariant rest <= target.Keys
      invariant forall n :: n in names <==> n in target.Keys && n !in rest
      invariant StrictlySorted(names)
      invariant forall i, n | 0 <= i < |names| && n in rest :: Below(names[i], n)
      decreases |rest|
    {
      LeastExists(rest);
      var k :| IsLeast(k, rest);
      names := names + [k];
      rest := rest - {k};
    }
    SortedUnique(names, SortedNames(target.Keys));
  }
}
