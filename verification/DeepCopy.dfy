/** Deep copy of dynamically typed values over a heap of mutable maps and slices. */
module DeepCopy {

  datatype Atom = StringAtom(s: string) | IntAtom(i: int) | FloatAtom(r: real) | BoolAtom(b: bool)

  /** A value of type any: containers by reference (null when nil), everything else by value or as an opaque pointer. */
  datatype Value =
    | Nil
    | Prim(atom: Atom)
    | Opaque(pointer: object?)
    | MapValue(m: MapObject?)
    | SliceValue(s: array?<Value>)

  class MapObject {
    var entries: map<string, Value>

    constructor ()
      ensures entries == map[]
    {
      entries := map[];
    }
  }

  /** The structure a finite acyclic value stands for; nil and empty containers are the same. */
  datatype Tree =
    | NilTree
    | PrimTree(atom: Atom)
    | OpaqueTree(pointer: object?)
    | MapTree(entries: map<string, Tree>)
    | SliceTree(items: seq<Tree>)

  /** `v` has structure `t`, and all its maps and slices lie in `heap`. */
  ghost predicate Denotes(v: Value, t: Tree, heap: set<object>)
    reads heap
    decreases t
  {
    match t
    case NilTree => v.Nil?
    case PrimTree(atom) => v == Prim(atom)
    case OpaqueTree(pointer) => v == Opaque(pointer)
    case MapTree(entries) =>
      v.MapValue? &&
      if v.m == null then entries == map[]
      else v.m in heap && v.m.entries.Keys == entries.Keys &&
           forall k :: k in entries ==> Denotes(v.m.entries[k], entries[k], heap)
    case SliceTree(items) =>
      v.SliceValue? &&
      if v.s == null then items == []
      else v.s in heap && v.s.Length == |items| &&
           forall i :: 0 <= i < |items| ==> Denotes(v.s[i], items[i], heap)
  }

  lemma {:induction false} DenotesGrows(v: Value, t: Tree, heap: set<object>, more: set<object>)
    requires Denotes(v, t, heap) && heap <= more
    ensures Denotes(v, t, more)
    decreases t
  {
    match t
    case NilTree =>
    case PrimTree(_) =>
    case OpaqueTree(_) =>
    case MapTree(entries) =>
      if v.m != null {
        forall k | k in entries ensures Denotes(v.m.entries[k], entries[k], more) {
          DenotesGrows(v.m.entries[k], entries[k], heap, more);
        }
      }
    case SliceTree(items) =>
      if v.s != null {
        forall i | 0 <= i < |items| ensures Denotes(v.s[i], items[i], more) {
          DenotesGrows(v.s[i], items[i], heap, more);
        }
      }
  }

  /** A value has one structure: no two trees describe it. */
  lemma {:induction false} OneStructure(v: Value, t: Tree, u: Tree, heap: set<object>)
    requires Denotes(v, t, heap) && Denotes(v, u, heap)
    ensures t == u
    decreases t
  {
    match t
    case NilTree =>
    case PrimTree(_) =>
    case OpaqueTree(_) =>
    case MapTree(entries) =>
      if v.m != null {
        forall k | k in entries ensures entries[k] == u.entries[k] { OneStructure(v.m.entries[k], entries[k], u.entries[k], heap); }
      }
    case SliceTree(items) =>
      if v.s != null {
        forall i | 0 <= i < |items| ensures items[i] == u.items[i] { OneStructure(v.s[i], items[i], u.items[i], heap); }
      }
  }

  /** A container reached from `v` is ranked, below `bound`. */
  ghost predicate Below(v: Value, rank: map<object, nat>, bound: nat) {
    && (v.MapValue? && v.m != null ==> v.m in rank && rank[v.m] < bound)
    && (v.SliceValue? && v.s != null ==> v.s in rank && rank[v.s] < bound)
  }

  /** Containers only hold containers of lower rank: the heap is closed and has no cycle. */
  ghost predicate Acyclic(rank: map<object, nat>)
    reads rank.Keys
  {
    && (forall m: MapObject, k :: m in rank && k in m.entries ==> Below(m.entries[k], rank, rank[m]))
    && (forall s: array<Value>, i :: s in rank && 0 <= i < s.Length ==> Below(s[i], rank, rank[s]))
  }

  /** Every value of an acyclic heap has a structure. */
  ghost function StructureOf(v: Value, rank: map<object, nat>, bound: nat): (t: Tree)
    requires Acyclic(rank) && Below(v, rank, bound)
    reads rank.Keys
    ensures Denotes(v, t, rank.Keys)
    decreases bound
  {
    match v
    case Nil => NilTree
    case Prim(atom) => PrimTree(atom)
    case Opaque(pointer) => OpaqueTree(pointer)
    case MapValue(m) =>
      if m == null then MapTree(map[])
      else MapTree(map k | k in m.entries :: StructureOf(m.entries[k], rank, rank[m]))
    case SliceValue(s) =>
      if s == null then SliceTree([])
      else SliceTree(seq(s.Length, i
                         requires 0 <= i < s.Length && Acyclic(rank) && s in rank && rank[s] < bound && Below(s[i], rank, rank[s])
                         reads s, rank.Keys
                         => StructureOf(s[i], rank, rank[s])))
  }

  /**
   The copy has the structure of the source and every map and slice in it is newly allocated. The
   source is not written: no object existing before the call may be.
   */
  method Copy(v: Value, ghost t: Tree, ghost heap: set<object>) returns (copy: Value, ghost own: set<object>)
    requires Denotes(v, t, heap)
    ensures fresh(own) && own !! heap
    ensures Denotes(copy, t, own)
    ensures v.MapValue? ==> copy.MapValue? && copy.m != null
    ensures v.SliceValue? ==> copy.SliceValue? && copy.s != null
    ensures !v.MapValue? && !v.SliceValue? ==> copy == v
    decreases t, 1
  {
    match v
    case Nil => copy, own := v, {};
    case Prim(_) => copy, own := v, {};
    case Opaque(_) => copy, own := v, {};
    case MapValue(m) =>
      if m == null || m.entries == map[] {
        var empty := new MapObject();
        copy, own := MapValue(empty), {empty};
      } else {
        var dst;
        dst, own := CopyEntries(m, t, heap);
        copy := MapValue(dst);
      }
    case SliceValue(s) =>
      if s == null || s.Length == 0 {
        var empty := new Value[0];
        copy, own := SliceValue(empty), {empty};
      } else {
        var dst;
        dst, own := CopyItems(s, t, heap);
        copy := SliceValue(dst);
      }
  }

  /** Entry by entry, `entries` has the structure of `trees`. */
  ghost predicate EntriesDenote(entries: map<string, Value>, trees: map<string, Tree>, heap: set<object>)
    reads heap
  {
    forall k :: k in entries ==> k in trees && Denotes(entries[k], trees[k], heap)
  }

  lemma EntriesGrow(entries: map<string, Value>, trees: map<string, Tree>, heap: set<object>, more: set<object>)
    requires EntriesDenote(entries, trees, heap) && heap <= more
    ensures EntriesDenote(entries, trees, more)
  {
    forall k | k in entries ensures Denotes(entries[k], trees[k], more) { DenotesGrows(entries[k], trees[k], heap, more); }
  }

  method CopyEntries(src: MapObject, ghost t: Tree, ghost heap: set<object>) returns (dst: MapObject, ghost own: set<object>)
    requires t.MapTree? && Denotes(MapValue(src), t, heap)
    ensures fresh(own) && own !! heap
    ensures Denotes(MapValue(dst), t, own)
    decreases t, 0
  {
    dst := new MapObject();
    ghost var inner: set<object> := {};
    var todo := src.entries.Keys;
    while todo != {}
      invariant todo <= src.entries.Keys && dst.entries.Keys == src.entries.Keys - todo
      invariant fresh(inner) && fresh(dst) && dst !in inner
      invariant EntriesDenote(dst.entries, t.entries, inner)
      decreases |todo|
    {
      var k :| k in todo;
      var child, more := Copy(src.entries[k], t.entries[k], heap);
      EntriesGrow(dst.entries, t.entries, inner, inner + more);
      DenotesGrows(child, t.entries[k], more, inner + more);
      inner := inner + more;
      todo := todo - {k};
      var entries := dst.entries[k := child];
      assert EntriesDenote(entries, t.entries, inner);
      dst.entries := entries;
    }
    own := inner + {dst};
    EntriesGrow(dst.entries, t.entries, inner, own);
  }

  method CopyItems(src: array<Value>, ghost t: Tree, ghost heap: set<object>) returns (dst: array<Value>, ghost own: set<object>)
    requires t.SliceTree? && Denotes(SliceValue(src), t, heap)
    ensures fresh(own) && own !! heap
    ensures Denotes(SliceValue(dst), t, own)
    decreases t, 0
  {
    dst := new Value[src.Length](_ => Nil);
    ghost var inner: set<object> := {};
    var i := 0;
    while i < src.Length
      invariant 0 <= i <= src.Length
      invariant fresh(inner) && fresh(dst) && dst !in inner
      invariant forall j :: 0 <= j < i ==> Denotes(dst[j], t.items[j], inner)
    {
      var child, more := Copy(src[i], t.items[i], heap);
      forall j | 0 <= j < i ensures Denotes(dst[j], t.items[j], inner + more) {
        DenotesGrows(dst[j], t.items[j], inner, inner + more);
      }
      DenotesGrows(child, t.items[i], more, inner + more);
      inner := inner + more;
      dst[i] := child;
      i := i + 1;
    }
    own := inner + {dst};
    forall j | 0 <= j < |t.items| ensures Denotes(dst[j], t.items[j], own) {
      DenotesGrows(dst[j], t.items[j], inner, own);
    }
  }

  /** The typed wrapper: nil stays nil, any other map is copied. */
  method CopyMap(m: MapObject?, ghost t: Tree, ghost heap: set<object>) returns (copy: MapObject?, ghost own: set<object>)
    requires t.MapTree? && Denotes(MapValue(m), t, heap)
    ensures fresh(own) && own !! heap
    ensures Denotes(MapValue(copy), t, own)
    ensures copy == null <==> m == null
  {
    if m == null { return null, {}; }
    copy, own := CopyEntries(m, t, heap);
  }

  /** Whatever is written to containers outside the copy, the copy keeps its structure. */
  twostate lemma CopyKeepsStructure(copy: Value, t: Tree, own: set<object>)
    requires old(Denotes(copy, t, own)) && unchanged(own)
    ensures Denotes(copy, t, own)
  {
  }
}
