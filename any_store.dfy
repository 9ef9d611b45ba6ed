/**
 * `Ffu`, the type-erased store of examples/any.rs: a map from key names to
 * boxed values whose type is known only at run time. On a read, the box is
 * cast back to the key's type; a box of another type means two keys of
 * different types share a name, and the read fails with "Corrupted Ffu".
 *
 * The bound `T: Any` becomes a value of `AnyType<T>`: the type's id, how a
 * value of it is boxed and how a box is cast back.
 */
module AnyExample {
  import opened Wrappers
  import opened Primitives
  import opened Keys

  /** `std::any::TypeId`, one per type the store is used with. */
  datatype TypeId = IpAddrId | U32Id | StringId

  /** `Box<dyn Any>`: a value together with (through its constructor) the id of its type. */
  datatype Boxed = IpAddrBox(addr: IpAddr) | U32Box(n: U32) | StringBox(s: string) {

    /** `Any::type_id` of the boxed value. */
    function Id(): TypeId {
      match this
      case IpAddrBox(_) => IpAddrId
      case U32Box(_) => U32Id
      case StringBox(_) => StringId
    }
  }

  /** What `T: Any` supplies: the id of `T`, boxing, and the cast of a box back to `T`. */
  datatype AnyType<!T> = AnyType(id: TypeId, box: T -> Boxed, unbox: Boxed -> Option<T>)

  /**
   * `t` describes a real type: boxing tags a value with `t.id` and casting back
   * recovers it, and the cast succeeds on exactly the boxes of id `t.id`.
   */
  ghost predicate Lawful<T(!new)>(t: AnyType<T>) {
    && (forall v: T :: t.box(v).Id() == t.id && t.unbox(t.box(v)) == Some(v))
    && (forall b: Boxed :: t.unbox(b).Some? <==> b.Id() == t.id)
    && (forall b: Boxed :: t.unbox(b).Some? ==> t.box(t.unbox(b).value) == b)
  }

  const IpAddrType: AnyType<IpAddr> :=
    AnyType(IpAddrId, (a: IpAddr) => IpAddrBox(a), (b: Boxed) => if b.IpAddrBox? then Some(b.addr) else None)

  const U32Type: AnyType<U32> :=
    AnyType(U32Id, (n: U32) => U32Box(n), (b: Boxed) => if b.U32Box? then Some(b.n) else None)

  const StringType: AnyType<string> :=
    AnyType(StringId, (s: string) => StringBox(s), (b: Boxed) => if b.StringBox? then Some(b.s) else None)

  lemma ExampleTypesLawful()
    ensures Lawful(IpAddrType) && Lawful(U32Type) && Lawful(StringType)
  {
  }

  /**
   * `downcast_ref::<T>()`: the boxed value as a `T` when the box's type id is
   * that of `T`, nothing otherwise.
   */
  function Downcast<T(!new)>(b: Boxed, t: AnyType<T>): (r: Option<T>)
    ensures b.Id() != t.id ==> r.None?
    ensures Lawful(t) ==> (r.Some? <==> b.Id() == t.id)
    ensures Lawful(t) && r.Some? ==> t.box(r.value) == b
  {
    if b.Id() == t.id then t.unbox(b) else None
  }

  /** What `Ffu::get` gives: `None`, `Some(value)`, or the "Corrupted Ffu" panic. */
  datatype Lookup<T> = Absent | Present(value: T) | Corrupted

  /** The store: one boxed value per name. */
  class Ffu {
    var data: map<string, Boxed>

    /** `Ffu::new`: a store with no entries. */
    constructor ()
      ensures data == map[]
    {
      data := map[];
    }

    /**
     * `Ffu::insert`: boxes `value` under the key's name, replacing whatever
     * was stored under that name, of whatever type; other names keep their entries.
     */
    method Insert<T(!new)>(key: Key<T>, t: AnyType<T>, value: T)
      modifies this
      ensures data == old(data)[key.Name() := t.box(value)]
      ensures Lawful(t) ==> Get(key, t) == Present(value)
      ensures forall n | n != key.Name() :: (n in data <==> n in old(data)) && (n in data ==> data[n] == old(data)[n])
      ensures |data| == if key.Name() in old(data) then |old(data)| else |old(data)| + 1
    {
      data := data[key.Name() := t.box(value)];
    }

    /**
     * `Ffu::get`: nothing when the name has no entry; the stored value when its
     * type is the key's; `Corrupted` when the name holds a value of another type.
     */
    function Get<T(!new)>(key: Key<T>, t: AnyType<T>): (r: Lookup<T>)
      reads this
      ensures r.Absent? <==> key.Name() !in data
      ensures Lawful(t) ==> (r.Present? <==> key.Name() in data && data[key.Name()].Id() == t.id)
      ensures Lawful(t) ==> (r.Corrupted? <==> key.Name() in data && data[key.Name()].Id() != t.id)
      ensures Lawful(t) && r.Present? ==> t.box(r.value) == data[key.Name()]
    {
      if key.Name() !in data then Absent
      else match Downcast(data[key.Name()], t)
        case Some(v) => Present(v)
        case None => Corrupted
    }
  }

  const Addr: Key<IpAddr> := TypedKey("addr")
  const Port: Key<U32> := TypedKey("port")
  const Host: Key<string> := TypedKey("host")

  /**
   * `main` of examples/any.rs, with the parsed address as a parameter: after
   * storing the address and the port, both read back and the host is absent.
   */
  method ExampleMain(localhost: IpAddr) returns (addr: Lookup<IpAddr>, port: Lookup<U32>, host: Lookup<string>)
    ensures addr == Present(localhost)
    ensures port == Present(80)
    ensures host == Absent
  {
    ExampleTypesLawful();
    var ffu := new Ffu();
    ffu.Insert(Addr, IpAddrType, localhost);
    ffu.Insert(Port, U32Type, 80);
    addr := ffu.Get(Addr, IpAddrType);
    port := ffu.Get(Port, U32Type);
    host := ffu.Get(Host, StringType);
  }

  /**
   * A `u32` stored as `port` and read through a `String` key of the same name:
   * the read reports corruption rather than returning a value.
   */
  method ExampleCorrupted() returns (r: Lookup<string>)
    ensures r == Corrupted
  {
    ExampleTypesLawful();
    var ffu := new Ffu();
    ffu.Insert(Port, U32Type, 80);
    r := ffu.Get(TypedKey<string>("port"), StringType);
  }
}
