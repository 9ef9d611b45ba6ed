# typed_key in Dafny

A model of `typed_key`, a small Rust library whose `Key<T>` is a string
constant that also remembers a type `T`. The model also covers the library's
two example consumers:

- `Ffu` is a type-erased store. It maps names to boxed values of any type and
  casts each value back to the key's type when it is read.
- `Config` is an accessor over a parsed JSON document. Its reads find a field
  by the key's name and convert that field to the key's type.

Modules, leaf first:

- `Wrappers`: `Option` (with `UnwrapOr`) and `Result`. `Result` works with
  `:-`, which stands for Rust's `?`.
- `Primitives`: `Byte`, `U16`, `U32` and `IpAddr`, the types the examples
  store and read.
- `DebugStr`: Rust's `{:?}` rendering of a string. It has a reader
  (`Unescape`) that is proved to invert the rendering.
- `Keys` (src/lib.rs): `Key<T>` is a datatype whose only field is `name`. The
  type parameter `T` appears in no field, and no operation puts a requirement
  on `T`. `Key.Name()` returns the stored name; the rows for `New`,
  `TypedKey` and `NameIsWholeKey` state what it returns.
- `AnyExample` (examples/any.rs): the class `Ffu`. Its field
  `data: map<string, Boxed>` is replaced by `Insert` and read by `Get`.
- `SerdeExample` (examples/serde.rs): the JSON value datatype `Json` and the
  immutable `Config`. `Config.Get` and `Config.GetOpt` are pure functions of
  the document, so they cannot change it.

Rust trait bounds become explicit values:

- `T: Any` becomes an `AnyType<T>`. It holds the type's id, a boxing
  function, and a checked cast back from a box. The ghost predicate `Lawful`
  says that the three agree, as they always do for a real Rust type. Each
  call passes its own `AnyType`; see "Left out" for what that does not fix.
- `T: DeserializeOwned` becomes a `Deserializer<T>`: a function from `Json`
  to a value or an error message.

A `Boxed` value carries its type id through its constructor, as a
`Box<dyn Any>` carries it in its vtable. So a box can never disagree with its
own id. The panic `expect("Corrupted Ffu")` becomes the outcome `Corrupted`
of `Get`.

## Model

| member | source | states |
|---|---|---|
| `Keys.New` | src/lib.rs:82-92 | a key built by `Key::new(n)` reports `name() == n` |
| `Keys.NameIsWholeKey` | src/lib.rs:89-92 | `name()` reports everything a key holds at run time: two keys of one type with the same name are the same key |
| `Keys.TypedKey` | src/lib.rs:112-118 | the `typed_key!(n)` literal reports `name() == n` and is the same key as `Key::new(n)` |
| `Keys.Key.Clone` | src/lib.rs:60-69 | `clone` gives the same key, with the same name, for every `T` and with no bound on `T` |
| `Keys.KeyIsCopy` | tests/smoke.rs:7-12 | copying a key twice and reading `name()` through both copies gives the key's name both times |
| `Keys.Key.Debug` | src/lib.rs:71-75 | the rendering is `Key("` then the escaped name then `")`; it reads back to exactly the name; a name with nothing to escape appears literally |
| `Keys.DebugDeterminesName` | src/lib.rs:71-75 | two keys with equal renderings have equal names |
| `Keys.DebugExample` | tests/smoke.rs:15-18 | the key `foo.bar` renders as `Key("foo.bar")` |
| `DebugStr.UnescapeEscape` | src/lib.rs:73 | reading back the `{:?}` escaping of any string gives that string |
| `DebugStr.EscapePlain` | src/lib.rs:73 | a string without quotes, backslashes or control characters is written unchanged |
| `AnyExample.Downcast` | examples/any.rs:28 | the cast gives a value exactly when the box's type id is the key type's id, and then it is the value that was boxed |
| `AnyExample.Ffu.constructor` | examples/any.rs:18-20 | a new store has no entries |
| `AnyExample.Ffu.Insert` | examples/any.rs:22-24 | the name now holds the boxed value, whatever it held before; a read through the same key and the same `AnyType` returns that value; every other name keeps its entry; the store grows by one entry exactly when the name was new |
| `AnyExample.Ffu.Get` | examples/any.rs:26-31 | absent exactly when the name has no entry; the stored value exactly when its type id is the key's; `Corrupted` exactly when the name holds a value of another type id |
| `AnyExample.ExampleMain` | examples/any.rs:40-49 | after inserting `addr` and `port`, both read back exactly and `host`, never inserted, is absent |
| `AnyExample.ExampleCorrupted` | examples/any.rs:28-29 | reading a stored `u32` through a `String` key of the same name reports corruption and returns no value |
| `SerdeExample.Config.FromStr` | examples/serde.rs:20-23 | construction fails, with a parse error, exactly when the text does not parse; otherwise the config holds the parsed document |
| `SerdeExample.Config.GetOpt` | examples/serde.rs:31-39 | no value when the root has no field of the key's name; otherwise `Some` of the converted field, or the conversion's error |
| `SerdeExample.Config.Get` | examples/serde.rs:25-29 | a missing field is the error "config value is required: `<name>`"; a present field gives its converted value or the conversion's error |
| `SerdeExample.GetFromGetOpt` | examples/serde.rs:25-28 | `get` succeeds exactly when `get_opt` yields a value, and with that value; `get_opt`'s errors pass through unchanged; `get_opt`'s absence becomes the required error |
| `SerdeExample.NonObjectRoot` | examples/serde.rs:32 | when the root is not an object, every `get_opt` has no value and every `get` is the required error |
| `SerdeExample.U32FromJson` | examples/serde.rs:35 | a `u32` converts exactly from an integer in range and equals it |
| `SerdeExample.StringFromJson` | examples/serde.rs:35 | a `String` converts exactly from a JSON string and equals it |
| `SerdeExample.IpAddrFromJson` | examples/serde.rs:35 | an `IpAddr` converts exactly from a JSON string that the address parser accepts, and is the parsed address |
| `SerdeExample.ExampleMain` | examples/serde.rs:51-63 | for the example document, `addr` reads as the parsed address; `port` is absent, so the default 8080 applies and a required read fails; `host` reads as `hal9000` |
| `SerdeExample.WrongShapeIsConversionError` | examples/serde.rs:34-37 | a port given as a string makes `get` return a conversion error, not a crash |

## Left out

- JSON text parsing (`serde_json::from_str`) belongs to another library. `Config.FromStr` takes the parser as a parameter.
- `T::deserialize` belongs to serde. `Config.Get` and `Config.GetOpt` take the conversion as a parameter.
- `U32FromJson`, `StringFromJson` and `IpAddrFromJson` follow serde's acceptance rules for these types. Their error texts are placeholders, not serde's wording.
- Parsing and formatting `IpAddr` belong to the standard library. The parser is a parameter, and the parsed address is passed to `AnyExample.ExampleMain`.
- JSON numbers are integers only. serde_json's floating-point numbers are not modelled.
- `Keys.Key.Debug` and `DebugStr.EscapePlain`: characters from U+00A0 on are written unchanged. Rust consults its Unicode tables and writes some of them, such as U+00A0, U+00AD or combining marks, as `\u{…}`. Below U+00A0 the model follows Rust: short escapes for `\0 \t \r \n \\ \"`, and `\u{…}` for the other control characters. (This follows current compilers. Older ones wrote `\u{0}` for `\0`, and `\'` for `'`.)
- Rust's run-time `TypeId` and `downcast_ref` are replaced by the closed set of stored types (`IpAddr`, `u32`, `String`) and explicit type ids. Storing other types would need more constructors in `Boxed`.
- `AnyExample.Ffu.Insert` and `AnyExample.Ffu.Get` each take their own `AnyType<T>`, and nothing makes it the one description of `T`, as Rust's single `Any` implementation per type is. The read-back is proved only when `Get` is given the same `AnyType` as `Insert`. Two different lawful descriptions of the same type (say one that boxes `n` as `n + 1`) can make a read return a value other than the one inserted. Nor does anything make `t.id` belong to `T` alone: a lawful description of another type with the same id reads a stored value as `Present`, where Rust panics.
- `HashMap` hashing is replaced by a Dafny `map`.
- `println!` output in both `main` functions is I/O and is not modelled.
- The `failure` crate's error type becomes the datatype `Error`, with one constructor per origin. `Error.Message` gives the text of the missing-field error.
- The `nightly` feature, `const fn`, `no_std`, the `__reexports` module and macro hygiene are build concerns.
- `Key` implements no equality or hashing in the source, and the model adds none. Equality of names is used only inside contracts.
