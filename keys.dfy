/**
 * `Key<T>`: a string constant that also remembers a type `T`.
 * `T` is a phantom: no field has that type, so it costs nothing at run time
 * and places no requirement on `T` (no equality, no default, no cloning).
 */
module Keys {
  import opened Wrappers
  import DebugStr
  import Primitives

  /** A typed key; its only run-time content is its name. */
  datatype Key<T> = Key(name: string) {

    /** `Key::name`: the string name of this key, which is all the key holds at run time. */
    function Name(): string {
      name
    }

    /** `Clone::clone` (and `Copy`): a key with the same name, for every `T`. */
    function Clone(): (c: Key<T>)
      ensures c.Name() == Name()
      ensures c == this
    {
      Key(name)
    }

    /** `Debug::fmt`: `Key(` and the debug-quoted name and `)`. */
    function Debug(): (s: string)
      ensures |s| >= 7 && s[..5] == "Key(\"" && s[|s| - 2..] == "\")"
      ensures ParseDebug(s) == Some(Name())
      ensures (forall i | 0 <= i < |Name()| :: !DebugStr.NeedsEscape(Name()[i])) ==>
                s == "Key(\"" + Name() + "\")"
    {
      RenderingFacts(name);
      "Key(" + DebugStr.Quoted(name) + ")"
    }
  }

  /** What `Key.Debug` needs about the rendering of `name`: it reads back, and is literal when nothing needs escaping. */
  lemma RenderingFacts(name: string)
    ensures var s := "Key(" + DebugStr.Quoted(name) + ")";
      && ParseDebug(s) == Some(name)
      && ((forall i | 0 <= i < |name| :: !DebugStr.NeedsEscape(name[i])) ==> s == "Key(\"" + name + "\")")
  {
    var e := DebugStr.Escape(name);
    var s := "Key(" + DebugStr.Quoted(name) + ")";
    assert s == "Key(\"" + e + "\")";
    assert |s| == |e| + 7;
    assert s[..5] == "Key(\"";
    assert s[|s| - 2..] == "\")";
    assert s[5..|s| - 2] == e;
    DebugStr.UnescapeEscape(name);
    if forall i | 0 <= i < |name| :: !DebugStr.NeedsEscape(name[i]) {
      DebugStr.EscapePlain(name);
    }
  }

  /** Reads the name back out of a `Key(...)` rendering; `None` for text no key renders to. */
  function ParseDebug(s: string): Option<string> {
    if |s| >= 7 && s[..5] == "Key(\"" && s[|s| - 2..] == "\")" then DebugStr.Unescape(s[5..|s| - 2])
    else None
  }

  /** `Key::new`: a key with the given name. */
  function New<T>(name: string): (k: Key<T>)
    ensures k.Name() == name
  {
    Key(name)
  }

  /** The `typed_key!` macro: a struct literal with the given name, the same key `New` builds. */
  function TypedKey<T>(name: string): (k: Key<T>)
    ensures k.Name() == name
    ensures k == New(name)
  {
    Key(name)
  }

  /** `name()` reports all a key holds at run time: keys of one type with the same name are the same key. */
  lemma NameIsWholeKey<T>(a: Key<T>, b: Key<T>)
    requires a.Name() == b.Name()
    ensures a == b
  {
  }

  /** Two keys whose renderings agree have the same name. */
  lemma DebugDeterminesName<T, U>(a: Key<T>, b: Key<U>)
    requires a.Debug() == b.Debug()
    ensures a.Name() == b.Name()
  {
    assert Some(a.Name()) == ParseDebug(a.Debug()) == Some(b.Name());
  }

  /** A key that is copied twice reports the same name through both copies. */
  method KeyIsCopy<T>(k: Key<T>) returns (xName: string, yName: string)
    ensures xName == yName == k.Name()
  {
    var x := k;
    var y := x;
    xName, yName := x.Name(), y.Name();
  }

  /** The rendering of the key `foo.bar`. */
  lemma DebugExample()
    ensures TypedKey<Primitives.U32>("foo.bar").Debug() == "Key(\"foo.bar\")"
  {
    var k := TypedKey<Primitives.U32>("foo.bar");
    var n := "foo.bar";
    assert k.Name() == n;
    assert forall i | 0 <= i < |n| :: !DebugStr.NeedsEscape(n[i]) by {
      forall i | 0 <= i < |n| ensures !DebugStr.NeedsEscape(n[i]) {
        assert 'a' <= n[i] <= 'z' || n[i] == '.';
      }
    }
  }
}
