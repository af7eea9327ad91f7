/** A dictionary in front of a table: every save writes both, a miss loads from the
    table. With the table present, forgetting any part of the dictionary (an eviction
    or a process restart) changes no later answer. */
module WriteThrough {
  import opened Records

  /** cache maps keys to values; docs is the table, indexed by the row name of a key. */
  datatype TwoLevel<K(==), N(==), V> = TwoLevel(cache: map<K, V>, docs: map<N, V>, persistent: bool)

  function Lookup<K(==), N(==), V>(st: TwoLevel<K, N, V>, name: K -> N, k: K): Option<V> {
    if k in st.cache then Some(st.cache[k])
    else if st.persistent && name(k) in st.docs then Some(st.docs[name(k)])
    else None
  }

  function Load<K(==), N(==), V>(st: TwoLevel<K, N, V>, name: K -> N, k: K): TwoLevel<K, N, V> {
    match Lookup(st, name, k)
    case None => st
    case Some(v) => st.(cache := st.cache[k := v])
  }

  function Save<K(==), N(==), V>(st: TwoLevel<K, N, V>, name: K -> N, k: K, v: V): TwoLevel<K, N, V> {
    TwoLevel(st.cache[k := v], if st.persistent then st.docs[name(k) := v] else st.docs, st.persistent)
  }

  /** Load, then save what `update` makes of the value found, if it makes any. */
  function Access<K(==), N(==), V>(st: TwoLevel<K, N, V>, name: K -> N, k: K,
                                   update: Option<V> -> Option<V>): TwoLevel<K, N, V> {
    match update(Lookup(st, name, k))
    case None => Load(st, name, k)
    case Some(v) => Save(Load(st, name, k), name, k, v)
  }

  function Forget<K(==), N(==), V>(st: TwoLevel<K, N, V>, keys: set<K>): TwoLevel<K, N, V> {
    st.(cache := st.cache - keys)
  }

  datatype Op<K(==), !V> =
    | Touch(key: K, update: Option<V> -> Option<V>)
    | Evict(keys: set<K>)

  /** What each Touch of a run found, over the two levels. */
  function Answers<K(==), N(==), V>(st: TwoLevel<K, N, V>, name: K -> N, ops: seq<Op<K, V>>): seq<Option<V>>
    decreases |ops|
  {
    if ops == [] then []
    else match ops[0]
      case Touch(k, f) => [Lookup(st, name, k)] + Answers(Access(st, name, k, f), name, ops[1..])
      case Evict(keys) => Answers(Forget(st, keys), name, ops[1..])
  }

  function Find<K(==), V>(m: map<K, V>, k: K): Option<V> {
    if k in m then Some(m[k]) else None
  }

  function Put<K(==), V>(m: map<K, V>, k: K, update: Option<V> -> Option<V>): map<K, V> {
    match update(Find(m, k))
    case None => m
    case Some(v) => m[k := v]
  }

  /** The same run over one plain map, which ignores evictions. */
  function PlainAnswers<K(==), V>(m: map<K, V>, ops: seq<Op<K, V>>): seq<Option<V>>
    decreases |ops|
  {
    if ops == [] then []
    else match ops[0]
      case Touch(k, f) => [Find(m, k)] + PlainAnswers(Put(m, k, f), ops[1..])
      case Evict(_) => PlainAnswers(m, ops[1..])
  }

  ghost predicate InjectiveOn<K(!new), N>(name: K -> N, dom: iset<K>) {
    forall a, b | a in dom && b in dom && name(a) == name(b) :: a == b
  }

  /** Every cached entry is what the table holds: the write-through invariant. */
  ghost predicate Coherent<K(!new), N, V>(st: TwoLevel<K, N, V>, name: K -> N) {
    forall k | k in st.cache :: name(k) in st.docs && st.docs[name(k)] == st.cache[k]
  }

  ghost predicate Represents<K(!new), N, V>(st: TwoLevel<K, N, V>, name: K -> N, dom: iset<K>, m: map<K, V>) {
    && st.persistent
    && Coherent(st, name)
    && (forall k | k in st.cache :: k in dom)
    && (forall k | k in dom :: (k in m <==> name(k) in st.docs) && (k in m ==> m[k] == st.docs[name(k)]))
  }

  ghost predicate KeysIn<K(!new), V>(ops: seq<Op<K, V>>, dom: iset<K>) {
    forall i | 0 <= i < |ops| && ops[i].Touch? :: ops[i].key in dom
  }

  lemma AccessRepresents<K(!new), N, V>(st: TwoLevel<K, N, V>, name: K -> N, dom: iset<K>, m: map<K, V>,
                                        k: K, f: Option<V> -> Option<V>)
    requires InjectiveOn(name, dom) && Represents(st, name, dom, m) && k in dom
    ensures Lookup(st, name, k) == Find(m, k)
    ensures Represents(Access(st, name, k, f), name, dom, Put(m, k, f))
  {
    assert Lookup(st, name, k) == Find(m, k);
    var st1 := Access(st, name, k, f);
    forall j | j in st1.cache
      ensures j in dom && name(j) in st1.docs && st1.docs[name(j)] == st1.cache[j]
    {
      if j != k {
        assert j in st.cache;
      }
    }
  }

  lemma LoadRepresents<K(!new), N, V>(st: TwoLevel<K, N, V>, name: K -> N, dom: iset<K>, m: map<K, V>, k: K)
    requires InjectiveOn(name, dom) && Represents(st, name, dom, m) && k in dom
    ensures Lookup(st, name, k) == Find(m, k)
    ensures Represents(Load(st, name, k), name, dom, m)
  {
  }

  lemma ForgetRepresents<K(!new), N, V>(st: TwoLevel<K, N, V>, name: K -> N, dom: iset<K>, m: map<K, V>, keys: set<K>)
    requires Represents(st, name, dom, m)
    ensures Represents(Forget(st, keys), name, dom, m)
  {
  }

  /** Evictions and restarts are invisible: on keys with distinct row names, the
      two-level store answers every run exactly as one plain map would. */
  lemma {:induction false} EvictionIsInvisible<K(!new), N, V>(
      st: TwoLevel<K, N, V>, name: K -> N, dom: iset<K>, m: map<K, V>, ops: seq<Op<K, V>>)
    requires InjectiveOn(name, dom) && Represents(st, name, dom, m) && KeysIn(ops, dom)
    ensures Answers(st, name, ops) == PlainAnswers(m, ops)
    decreases |ops|
  {
    if ops != [] {
      assert KeysIn(ops[1..], dom) by {
        assert forall i :: 0 <= i < |ops[1..]| ==> ops[1..][i] == ops[i + 1];
      }
      match ops[0] {
        case Touch(k, f) =>
          AccessRepresents(st, name, dom, m, k, f);
          EvictionIsInvisible(Access(st, name, k, f), name, dom, Put(m, k, f), ops[1..]);
        case Evict(keys) =>
          EvictionIsInvisible(Forget(st, keys), name, dom, m, ops[1..]);
      }
    }
  }

  // ----- which keys the two levels serve

  /** Nothing cached, nothing stored. */
  function Fresh<K(==), N(==), V>(): TwoLevel<K, N, V> {
    TwoLevel(map[], map[], true)
  }

  /** From an empty store, every run over these keys answers as one plain map. */
  ghost predicate ActsAsMap<K(!new), N, V(!new)>(name: K -> N, dom: iset<K>) {
    forall ops: seq<Op<K, V>> | KeysIn(ops, dom) ::
      Answers(Fresh<K, N, V>(), name, ops) == PlainAnswers(map[], ops)
  }

  function Storing<V>(v: V): Option<V> -> Option<V> {
    (o: Option<V>) => Some(v)
  }

  function Reading<V>(): Option<V> -> Option<V> {
    (o: Option<V>) => None
  }

  /** Save under one key, then read under another. */
  function SaveThenRead<K(==), V>(a: K, b: K, save: Option<V> -> Option<V>): seq<Op<K, V>> {
    [Touch(a, save), Touch(b, Reading())]
  }

  /** A key that shares its row name finds what was saved under the other key. */
  lemma SharedNameLeaks<K(!new), N, V>(name: K -> N, a: K, b: K, save: Option<V> -> Option<V>)
    requires a != b && name(a) == name(b) && save(None).Some?
    ensures Answers(Fresh<K, N, V>(), name, SaveThenRead(a, b, save)) == [None, save(None)]
    ensures PlainAnswers(map[], SaveThenRead(a, b, save)) == [None, None]
  {
    var ops := SaveThenRead(a, b, save);
    var read: seq<Op<K, V>> := [Touch(b, Reading())];
    var st := Access(Fresh<K, N, V>(), name, a, save);
    assert ops[1..] == read && read[1..] == [];
    assert Lookup(st, name, b) == save(None);
    assert Answers(st, name, read) == [save(None)];
    assert PlainAnswers(map[a := save(None).value], read) == [None];
  }

  /** The two levels act as one plain map on a set of keys if and only if no two of these
      keys share a row name. */
  lemma ActsAsMapExactly<K(!new), N, V(!new)>(name: K -> N, dom: iset<K>, v: V)
    ensures ActsAsMap<K, N, V>(name, dom) <==> InjectiveOn(name, dom)
  {
    if InjectiveOn(name, dom) {
      forall ops: seq<Op<K, V>> | KeysIn(ops, dom)
        ensures Answers(Fresh<K, N, V>(), name, ops) == PlainAnswers(map[], ops)
      {
        EvictionIsInvisible(Fresh<K, N, V>(), name, dom, map[], ops);
      }
    } else {
      var a, b :| a in dom && b in dom && name(a) == name(b) && a != b;
      SharedNameLeaks(name, a, b, Storing(v));
      assert KeysIn(SaveThenRead(a, b, Storing(v)), dom);
    }
  }
}
