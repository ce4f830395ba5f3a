/** The free page list: a list of lists.  Free extents of one size form a row in address order,
    linked by `next`; the first extents of the rows are linked by `bigger` in order of size.
    Every descriptor has a `parent` link back to the one pointer that leads to it.

    An extent is named by the number of its first page; page 0 is the null pointer. */
module FreePages {

  /** The address of a pointer: the head of the whole structure, or a field of a descriptor. */
  datatype Link = Root | Bigger(n: nat) | Next(n: nat)

  datatype Node = Node(parent: Link, bigger: nat, next: nat, size: nat)

  type Memory = map<nat, Node>

  // ----- what the links must be, in terms of the set of (size, address) alone

  /** The first extent of its row. */
  ghost predicate First(mem: Memory, n: nat) {
    n in mem && forall m :: m in mem && mem[m].size == mem[n].size ==> n <= m
  }

  /** `next` is the next higher address of the same size. */
  ghost predicate NextOk(mem: Memory, n: nat)
    requires n in mem
  {
    var q := mem[n].next;
    && (q != 0 ==> q in mem && mem[q].size == mem[n].size && n < q)
    && (forall m :: m in mem && mem[m].size == mem[n].size && n < m ==> q != 0 && q <= m)
  }

  /** `bigger` of the first extent of a row is the first extent of the next larger size; of any
      other extent it is null. */
  ghost predicate BiggerOk(mem: Memory, n: nat)
    requires n in mem
  {
    var b := mem[n].bigger;
    && (b != 0 ==> First(mem, n) && First(mem, b) && mem[n].size < mem[b].size)
    && (First(mem, n) ==> forall m :: m in mem && mem[n].size < mem[m].size ==> b != 0 && mem[b].size <= mem[m].size)
  }

  /** The pointer at `l`. */
  function Deref(root: nat, mem: Memory, l: Link): nat {
    match l
    case Root => root
    case Bigger(n) => if n in mem then mem[n].bigger else 0
    case Next(n) => if n in mem then mem[n].next else 0
  }

  ghost predicate ParentOk(root: nat, mem: Memory, n: nat)
    requires n in mem
  {
    Deref(root, mem, mem[n].parent) == n
  }

  /** The head of the structure is the least size, at its lowest address. */
  ghost predicate RootOk(root: nat, mem: Memory) {
    && (root != 0 ==> First(mem, root))
    && (forall m :: m in mem ==> root != 0 && mem[root].size <= mem[m].size)
  }

  ghost predicate Valid(root: nat, mem: Memory) {
    && 0 !in mem
    && RootOk(root, mem)
    && (forall n {:trigger NextOk(mem, n)} {:trigger BiggerOk(mem, n)} {:trigger ParentOk(root, mem, n)} ::
          n in mem ==> NextOk(mem, n) && BiggerOk(mem, n) && ParentOk(root, mem, n))
  }

  /** The links of one extent. */
  lemma ValidAt(root: nat, mem: Memory, n: nat)
    requires Valid(root, mem) && n in mem
    ensures NextOk(mem, n) && BiggerOk(mem, n) && ParentOk(root, mem, n) && n != 0
  {}

  lemma ValidRoot(root: nat, mem: Memory)
    requires Valid(root, mem)
    ensures RootOk(root, mem) && 0 !in mem
  {}

  /** The sizes of the free extents. */
  ghost function Sizes(mem: Memory): map<nat, nat> {
    map n | n in mem :: mem[n].size
  }

  // ----- single assignments

  function SetParent(mem: Memory, n: nat, l: Link): Memory
    requires n in mem
  {
    mem[n := mem[n].(parent := l)]
  }

  function SetBigger(mem: Memory, n: nat, b: nat): Memory
    requires n in mem
  {
    mem[n := mem[n].(bigger := b)]
  }

  function SetNext(mem: Memory, n: nat, q: nat): Memory
    requires n in mem
  {
    mem[n := mem[n].(next := q)]
  }

  /** `*l = v`, when `l` is a field of a descriptor. */
  function Store(mem: Memory, l: Link, v: nat): Memory
    requires l.Bigger? || l.Next? ==> l.n in mem
  {
    match l
    case Root => mem
    case Bigger(n) => SetBigger(mem, n, v)
    case Next(n) => SetNext(mem, n, v)
  }

  /** The link that leads to an extent says whether the extent is first in its row. */
  lemma ParentKind(root: nat, mem: Memory, n: nat)
    requires Valid(root, mem) && n in mem
    ensures First(mem, n) <==> !mem[n].parent.Next?
    ensures !mem[n].parent.Root? ==> mem[n].parent.n in mem && mem[n].parent.n != n
    ensures mem[n].parent.Bigger? ==> First(mem, mem[n].parent.n)
  {
    hide Valid;
    ValidRoot(root, mem);
    ValidAt(root, mem, n);
    if !mem[n].parent.Root? {
      ValidAt(root, mem, mem[n].parent.n);
    }
  }

  // ----- removing

  /** The structure after fp_remove. */
  function Without(root: nat, mem: Memory, p: nat): (nat, Memory)
    requires p in mem && p != mem[p].next && (mem[p].next != 0 ==> mem[p].next in mem)
    requires mem[p].bigger != 0 ==> mem[p].bigger in mem && mem[p].bigger != p
    requires !mem[p].parent.Root? ==> mem[p].parent.n in mem && mem[p].parent.n != p
  {
    var n := mem[p];
    var m := mem - {p};
    var v := if n.next != 0 then n.next else n.bigger;
    var root' := if n.parent == Root then v else root;
    var m1 := Store(m, n.parent, v);
    if n.next != 0 then
      var m2 := SetBigger(SetParent(m1, n.next, n.parent), n.next, n.bigger);
      (root', if n.bigger != 0 then SetParent(m2, n.bigger, Bigger(n.next)) else m2)
    else
      (root', if n.bigger != 0 then SetParent(m1, n.bigger, n.parent) else m1)
  }

  /** What fp_remove may rely on. */
  lemma Removable(root: nat, mem: Memory, p: nat)
    requires Valid(root, mem) && p in mem
    ensures p != mem[p].next && (mem[p].next != 0 ==> mem[p].next in mem)
    ensures mem[p].bigger != 0 ==> mem[p].bigger in mem && mem[p].bigger != p
    ensures !mem[p].parent.Root? ==> mem[p].parent.n in mem && mem[p].parent.n != p
  {
    ValidAt(root, mem, p);
    ParentKind(root, mem, p);
  }

  /** Exactly one pointer leads to an extent, and `parent` is its address. */
  lemma OnePointer(root: nat, mem: Memory, p: nat, n: nat)
    requires Valid(root, mem) && p in mem && n in mem
    ensures mem[n].next == p <==> mem[p].parent == Next(n)
    ensures mem[n].bigger == p <==> mem[p].parent == Bigger(n)
    ensures root == p <==> mem[p].parent == Root
  {
    hide Valid;
    ValidRoot(root, mem);
    ParentKind(root, mem, p);
    ValidAt(root, mem, n);
    ValidAt(root, mem, p);
    if !mem[p].parent.Root? {
      ValidAt(root, mem, mem[p].parent.n);
    }
  }

  /** The links of the structure after fp_remove, one extent at a time. */
  lemma WithoutLinks(root: nat, mem: Memory, p: nat, n: nat)
    requires Valid(root, mem) && p in mem && n in mem && n != p && Without.requires(root, mem, p)
    ensures
      var mem' := Without(root, mem, p).1;
      && mem'.Keys == mem.Keys - {p}
      && mem'[n].size == mem[n].size
      && mem'[n].next == (if mem[n].next == p then mem[p].next else mem[n].next)
      && mem'[n].bigger == (if n == mem[p].next then mem[p].bigger
                            else if mem[n].bigger == p then (if mem[p].next != 0 then mem[p].next else mem[p].bigger)
                            else mem[n].bigger)
      && mem'[n].parent == (if n == mem[p].next then mem[p].parent
                            else if n == mem[p].bigger then
                              (if mem[p].next != 0 then Bigger(mem[p].next) else mem[p].parent)
                            else mem[n].parent)
  {
    hide Valid;
    OnePointer(root, mem, p, n);
    Neighbours(root, mem, p);
  }

  /** The extents around `p` are different ones. */
  lemma Neighbours(root: nat, mem: Memory, p: nat)
    requires Valid(root, mem) && p in mem
    ensures mem[p].next != 0 ==> mem[p].next != mem[p].bigger
    ensures mem[p].next != 0 ==> mem[p].parent != Next(mem[p].next) && mem[p].parent != Bigger(mem[p].next)
    ensures mem[p].bigger != 0 ==> mem[p].parent != Next(mem[p].bigger) && mem[p].parent != Bigger(mem[p].bigger)
    ensures mem[p].parent.Next? ==> mem[p].bigger == 0
    ensures 0 !in mem
  {
    hide Valid;
    ValidRoot(root, mem);
    ParentKind(root, mem, p);
    ValidAt(root, mem, p);
    if mem[p].next != 0 {
      ValidAt(root, mem, mem[p].next);
    }
    if mem[p].bigger != 0 {
      ValidAt(root, mem, mem[p].bigger);
    }
  }

  /** Removing keeps the sizes of the others. */
  lemma WithoutSizes(root: nat, mem: Memory, p: nat)
    requires Valid(root, mem) && p in mem && Without.requires(root, mem, p)
    ensures var mem' := Without(root, mem, p).1;
      && mem'.Keys == mem.Keys - {p}
      && forall m :: m in mem' ==> mem'[m].size == mem[m].size
  {
    hide Valid;
    hide Without;
    forall m | m in mem && m != p
      ensures m in Without(root, mem, p).1 && Without(root, mem, p).1[m].size == mem[m].size
    {
      WithoutLinks(root, mem, p, m);
    }
    WithoutKeys(root, mem, p);
  }

  lemma WithoutKeys(root: nat, mem: Memory, p: nat)
    requires Valid(root, mem) && p in mem && Without.requires(root, mem, p)
    ensures Without(root, mem, p).1.Keys == mem.Keys - {p}
  {
    hide Valid;
    Neighbours(root, mem, p);
  }

  /** A row loses its first extent to the next one. */
  lemma WithoutFirst(mem: Memory, mem': Memory, p: nat, n: nat)
    requires p in mem && NextOk(mem, p) && n in mem' && mem'.Keys == mem.Keys - {p}
    requires forall m :: m in mem' ==> mem'[m].size == mem[m].size
    ensures First(mem', n) <==> First(mem, n) || (First(mem, p) && n == mem[p].next)
  {
    if First(mem', n) && mem[p].size == mem[n].size && p < n {
      assert mem[p].next in mem';
    }
  }

  lemma WithoutNextOk(root: nat, mem: Memory, p: nat, n: nat)
    requires Valid(root, mem) && p in mem && n in mem && n != p && Without.requires(root, mem, p)
    ensures n in Without(root, mem, p).1 && NextOk(Without(root, mem, p).1, n)
  {
    hide Valid;
    hide Without;
    WithoutSizes(root, mem, p);
    WithoutLinks(root, mem, p, n);
    ValidAt(root, mem, n);
    ValidAt(root, mem, p);
  }

  lemma WithoutBiggerOk(root: nat, mem: Memory, p: nat, n: nat)
    requires Valid(root, mem) && p in mem && n in mem && n != p && Without.requires(root, mem, p)
    ensures n in Without(root, mem, p).1 && BiggerOk(Without(root, mem, p).1, n)
  {
    hide Valid;
    hide Without;
    var mem' := Without(root, mem, p).1;
    WithoutSizes(root, mem, p);
    WithoutLinks(root, mem, p, n);
    ValidAt(root, mem, n);
    ValidAt(root, mem, p);
    WithoutFirst(mem, mem', p, n);
    if mem'[n].bigger != 0 && mem'[n].bigger in mem' {
      WithoutFirst(mem, mem', p, mem'[n].bigger);
    }
  }

  lemma WithoutParentOk(root: nat, mem: Memory, p: nat, n: nat)
    requires Valid(root, mem) && p in mem && n in mem && n != p && Without.requires(root, mem, p)
    ensures n in Without(root, mem, p).1 && ParentOk(Without(root, mem, p).0, Without(root, mem, p).1, n)
  {
    hide Valid;
    hide NextOk;
    WithoutSizes(root, mem, p);
    WithoutLinks(root, mem, p, n);
    Neighbours(root, mem, p);
    ParentKind(root, mem, n);
    ParentKind(root, mem, p);
    ValidAt(root, mem, n);
    ValidAt(root, mem, p);
    hide BiggerOk;
    hide First;
    OnePointer(root, mem, n, p);
    WithoutRoot(root, mem, p);
    if !mem[n].parent.Root? && mem[n].parent.n != p {
      WithoutLinks(root, mem, p, mem[n].parent.n);
      OnePointer(root, mem, p, mem[n].parent.n);
    }
    if !mem[p].parent.Root? {
      WithoutLinks(root, mem, p, mem[p].parent.n);
    }
    if mem[p].next != 0 {
      WithoutLinks(root, mem, p, mem[p].next);
    }
    hide Without;
  }

  lemma WithoutRoot(root: nat, mem: Memory, p: nat)
    requires Valid(root, mem) && p in mem && Without.requires(root, mem, p)
    ensures Without(root, mem, p).0 ==
      if mem[p].parent == Root then (if mem[p].next != 0 then mem[p].next else mem[p].bigger) else root
  {}

  lemma WithoutRootOk(root: nat, mem: Memory, p: nat)
    requires Valid(root, mem) && p in mem && Without.requires(root, mem, p)
    ensures RootOk(Without(root, mem, p).0, Without(root, mem, p).1)
  {
    hide Valid;
    ValidRoot(root, mem);
    WithoutSizes(root, mem, p);
    WithoutRoot(root, mem, p);
    hide Without;
    OnePointer(root, mem, p, p);
    ParentKind(root, mem, p);
    ValidAt(root, mem, p);
    var root' := Without(root, mem, p).0;
    if root' in Without(root, mem, p).1 {
      WithoutFirst(mem, Without(root, mem, p).1, p, root');
    }
  }

  lemma WithoutValid(root: nat, mem: Memory, p: nat)
    requires Valid(root, mem) && p in mem && Without.requires(root, mem, p)
    ensures Valid(Without(root, mem, p).0, Without(root, mem, p).1)
    ensures Sizes(Without(root, mem, p).1) == Sizes(mem) - {p}
  {
    hide Without;
    hide RootOk;
    hide NextOk;
    hide BiggerOk;
    hide ParentOk;
    WithoutRootOk(root, mem, p);
    WithoutSizes(root, mem, p);
    var mem' := Without(root, mem, p).1;
    forall n | n in mem' ensures NextOk(mem', n) && BiggerOk(mem', n) && ParentOk(Without(root, mem, p).0, mem', n) {
      WithoutNextOk(root, mem, p, n);
      WithoutBiggerOk(root, mem, p, n);
      WithoutParentOk(root, mem, p, n);
    }
  }

  // ----- adding

  /** Where the loops of fp_add stop: `t` is the address of the pointer that is to lead to the new
      extent `p`, inside the row of its size or between two rows. */
  ghost predicate Place(root: nat, mem: Memory, p: nat, size: nat, t: Link, inRow: bool) {
    var cur := Deref(root, mem, t);
    && p !in mem && p != 0
    && (!t.Root? ==> t.n in mem)
    && (cur != 0 ==> cur in mem)
    && (if inRow then
          && (t.Next? ==> mem[t.n].size == size && t.n < p && (cur != 0 ==> p < cur))
          && (!t.Next? ==> cur != 0 && First(mem, cur) && mem[cur].size == size && p < cur)
        else
          && !t.Next?
          && (t.Bigger? ==> First(mem, t.n) && mem[t.n].size < size)
          && (cur != 0 ==> First(mem, cur) && size < mem[cur].size)
          && (forall m :: m in mem ==> mem[m].size != size))
  }

  /** The structure after fp_add. */
  function With(root: nat, mem: Memory, p: nat, size: nat, t: Link, inRow: bool): (nat, Memory)
    requires !t.Root? ==> t.n in mem
    requires Deref(root, mem, t) != 0 ==>
      Deref(root, mem, t) in mem && (mem[Deref(root, mem, t)].bigger != 0 ==> mem[Deref(root, mem, t)].bigger in mem)
  {
    var cur := Deref(root, mem, t);
    var next := if inRow then cur else 0;
    var bigger := if !inRow then cur else if cur != 0 then mem[cur].bigger else 0;
    var m1 := if inRow && bigger != 0 then SetBigger(SetParent(mem, bigger, Bigger(p)), cur, 0) else mem;
    var m2 := if cur != 0 then SetParent(m1, cur, if inRow then Next(p) else Bigger(p)) else m1;
    (if t == Root then p else root, Store(m2, t, p)[p := Node(t, bigger, next, size)])
  }

  lemma Addable(root: nat, mem: Memory, p: nat, size: nat, t: Link, inRow: bool)
    requires Valid(root, mem) && Place(root, mem, p, size, t, inRow)
    ensures With.requires(root, mem, p, size, t, inRow)
    ensures var cur := Deref(root, mem, t);
      cur != 0 ==> mem[cur].parent == t && NextOk(mem, cur) && BiggerOk(mem, cur) && mem[cur].bigger != cur
                   && t != Bigger(cur) && t != Next(cur)
                   && (mem[cur].bigger != 0 ==> t != Bigger(mem[cur].bigger) && t != Next(mem[cur].bigger))
  {
    hide Valid;
    var cur := Deref(root, mem, t);
    if cur != 0 {
      ValidAt(root, mem, cur);
      OnePointer(root, mem, cur, if t.Root? then cur else t.n);
      Neighbours(root, mem, cur);
    }
  }

  lemma WithLinks(root: nat, mem: Memory, p: nat, size: nat, t: Link, inRow: bool, n: nat)
    requires Valid(root, mem) && Place(root, mem, p, size, t, inRow) && With.requires(root, mem, p, size, t, inRow)
    requires n in mem
    ensures
      var cur := Deref(root, mem, t);
      var mem' := With(root, mem, p, size, t, inRow).1;
      && mem'.Keys == mem.Keys + {p}
      && mem'[n].size == mem[n].size
      && mem'[n].next == (if t == Next(n) then p else mem[n].next)
      && mem'[n].bigger == (if t == Bigger(n) then p else if inRow && n == cur then 0 else mem[n].bigger)
      && mem'[n].parent == (if n == cur then (if inRow then Next(p) else Bigger(p))
                            else if inRow && cur != 0 && n == mem[cur].bigger then Bigger(p)
                            else mem[n].parent)
  {
    hide Valid;
    hide First;
    Addable(root, mem, p, size, t, inRow);
    hide NextOk;
    hide BiggerOk;
    ValidAt(root, mem, n);
  }

  lemma WithSizes(root: nat, mem: Memory, p: nat, size: nat, t: Link, inRow: bool)
    requires Valid(root, mem) && Place(root, mem, p, size, t, inRow) && With.requires(root, mem, p, size, t, inRow)
    ensures
      var cur := Deref(root, mem, t);
      var (root', mem') := With(root, mem, p, size, t, inRow);
      && root' == (if t == Root then p else root)
      && mem'.Keys == mem.Keys + {p}
      && (forall m :: m in mem ==> mem'[m].size == mem[m].size)
      && mem'[p] == Node(t, if !inRow then cur else if cur != 0 then mem[cur].bigger else 0,
                         if inRow then cur else 0, size)
  {
    hide Valid;
    Addable(root, mem, p, size, t, inRow);
    forall m | m in mem ensures With(root, mem, p, size, t, inRow).1[m].size == mem[m].size {
      WithLinks(root, mem, p, size, t, inRow, m);
    }
    hide Place;
  }

  /** The new extent is first in its row exactly when the pointer to it is not a `next`. */
  lemma WithFirst(mem: Memory, mem': Memory, p: nat, size: nat, n: nat)
    requires p !in mem && mem'.Keys == mem.Keys + {p} && mem'[p].size == size && n in mem
    requires forall m :: m in mem ==> mem'[m].size == mem[m].size
    ensures First(mem', n) <==> First(mem, n) && (mem[n].size == size ==> n <= p)
  {
  }

  lemma WithFirstNew(root: nat, mem: Memory, p: nat, size: nat, t: Link, inRow: bool, mem': Memory)
    requires Valid(root, mem) && Place(root, mem, p, size, t, inRow)
    requires mem'.Keys == mem.Keys + {p} && mem'[p].size == size
    requires forall m :: m in mem ==> mem'[m].size == mem[m].size
    ensures First(mem', p) <==> !t.Next?
  {
    hide Valid;
    if t.Next? {
      assert t.n in mem' && mem'[t.n].size == size;
    }
  }

  lemma WithNextOk(root: nat, mem: Memory, p: nat, size: nat, t: Link, inRow: bool, n: nat)
    requires Valid(root, mem) && Place(root, mem, p, size, t, inRow) && With.requires(root, mem, p, size, t, inRow)
    requires n in mem || n == p
    ensures var mem' := With(root, mem, p, size, t, inRow).1; n in mem' && NextOk(mem', n)
  {
    hide Valid;
    hide With;
    WithSizes(root, mem, p, size, t, inRow);
    var cur := Deref(root, mem, t);
    if t.Next? {
      ValidAt(root, mem, t.n);
    }
    if n != p {
      WithLinks(root, mem, p, size, t, inRow, n);
      ValidAt(root, mem, n);
      if mem[n].size == size && t != Next(n) {
        PlaceNext(root, mem, p, size, t, inRow, n);
      }
    }
  }

  /** No other extent of the row has `p` before its successor. */
  lemma PlaceNext(root: nat, mem: Memory, p: nat, size: nat, t: Link, inRow: bool, n: nat)
    requires Valid(root, mem) && Place(root, mem, p, size, t, inRow) && n in mem && t != Next(n)
    requires mem[n].size == size
    ensures n < p ==> mem[n].next != 0 && mem[n].next < p
  {
    hide Valid;
    ValidAt(root, mem, n);
    if t.Next? {
      ValidAt(root, mem, t.n);
    }
  }

  lemma WithBiggerOk(root: nat, mem: Memory, p: nat, size: nat, t: Link, inRow: bool, n: nat)
    requires Valid(root, mem) && Place(root, mem, p, size, t, inRow) && With.requires(root, mem, p, size, t, inRow)
    requires n in mem
    ensures var mem' := With(root, mem, p, size, t, inRow).1; n in mem' && BiggerOk(mem', n)
  {
    hide Valid;
    hide With;
    var mem' := With(root, mem, p, size, t, inRow).1;
    WithSizes(root, mem, p, size, t, inRow);
    WithFirstNew(root, mem, p, size, t, inRow, mem');
    WithLinks(root, mem, p, size, t, inRow, n);
    Addable(root, mem, p, size, t, inRow);
    ValidRoot(root, mem);
    ValidAt(root, mem, n);
    WithFirst(mem, mem', p, size, n);
    if mem[n].bigger != 0 {
      WithFirst(mem, mem', p, size, mem[n].bigger);
      OnePointer(root, mem, mem[n].bigger, n);
    }
    if !t.Root? {
      ValidAt(root, mem, t.n);
    }
    PlaceBigger(root, mem, p, size, t, inRow, n);
  }

  /** No other row head has the new row, or the new head of a row, as its successor. */
  lemma PlaceBigger(root: nat, mem: Memory, p: nat, size: nat, t: Link, inRow: bool, n: nat)
    requires Valid(root, mem) && Place(root, mem, p, size, t, inRow) && n in mem
    ensures t != Bigger(n) && First(mem, n) && mem[n].size < size ==>
      mem[n].bigger != 0 && mem[n].bigger in mem && mem[mem[n].bigger].size <= size
      && (mem[mem[n].bigger].size == size ==> mem[n].bigger < p)
  {
    hide Valid;
    ValidRoot(root, mem);
    ValidAt(root, mem, n);
    if t.Bigger? {
      ValidAt(root, mem, t.n);
    } else if t.Next? {
      ValidAt(root, mem, t.n);
    }
    if mem[n].bigger != 0 {
      OnePointer(root, mem, mem[n].bigger, n);
    }
    var cur := Deref(root, mem, t);
    if cur != 0 {
      OnePointer(root, mem, cur, n);
      ValidAt(root, mem, cur);
      if !t.Root? {
        OnePointer(root, mem, cur, t.n);
      }
    }
  }

  lemma WithBiggerOkNew(root: nat, mem: Memory, p: nat, size: nat, t: Link, inRow: bool)
    requires Valid(root, mem) && Place(root, mem, p, size, t, inRow) && With.requires(root, mem, p, size, t, inRow)
    ensures var mem' := With(root, mem, p, size, t, inRow).1; p in mem' && BiggerOk(mem', p)
  {
    hide Valid;
    hide With;
    var mem' := With(root, mem, p, size, t, inRow).1;
    var cur := Deref(root, mem, t);
    ValidRoot(root, mem);
    WithSizes(root, mem, p, size, t, inRow);
    WithFirstNew(root, mem, p, size, t, inRow, mem');
    if t.Bigger? {
      ValidAt(root, mem, t.n);
    }
    if cur != 0 {
      ValidAt(root, mem, cur);
      ParentKind(root, mem, cur);
      OnePointer(root, mem, cur, if t.Root? then cur else t.n);
      WithFirst(mem, mem', p, size, cur);
      if mem[cur].bigger != 0 {
        WithFirst(mem, mem', p, size, mem[cur].bigger);
      }
    }
  }

  lemma WithParentOk(root: nat, mem: Memory, p: nat, size: nat, t: Link, inRow: bool, n: nat)
    requires Valid(root, mem) && Place(root, mem, p, size, t, inRow) && With.requires(root, mem, p, size, t, inRow)
    requires n in mem || n == p
    ensures var (root', mem') := With(root, mem, p, size, t, inRow); n in mem' && ParentOk(root', mem', n)
  {
    hide Valid;
    hide With;
    WithSizes(root, mem, p, size, t, inRow);
    Addable(root, mem, p, size, t, inRow);
    hide NextOk;
    hide BiggerOk;
    var cur := Deref(root, mem, t);
    if !t.Root? {
      WithLinks(root, mem, p, size, t, inRow, t.n);
    }
    hide Place;
    if n != p {
      WithLinks(root, mem, p, size, t, inRow, n);
      ValidAt(root, mem, n);
      ParentKind(root, mem, n);
      if cur != 0 {
        OnePointer(root, mem, n, cur);
        ParentKind(root, mem, cur);
      }
      if !mem[n].parent.Root? {
        WithLinks(root, mem, p, size, t, inRow, mem[n].parent.n);
        OnePointer(root, mem, n, mem[n].parent.n);
      }
      ValidRoot(root, mem);
    }
  }

  lemma WithRootOk(root: nat, mem: Memory, p: nat, size: nat, t: Link, inRow: bool)
    requires Valid(root, mem) && Place(root, mem, p, size, t, inRow) && With.requires(root, mem, p, size, t, inRow)
    ensures var (root', mem') := With(root, mem, p, size, t, inRow); RootOk(root', mem')
  {
    hide Valid;
    hide With;
    var mem' := With(root, mem, p, size, t, inRow).1;
    ValidRoot(root, mem);
    WithSizes(root, mem, p, size, t, inRow);
    WithFirstNew(root, mem, p, size, t, inRow, mem');
    Addable(root, mem, p, size, t, inRow);
    if root != 0 {
      WithFirst(mem, mem', p, size, root);
    }
    var cur := Deref(root, mem, t);
    if cur != 0 {
      OnePointer(root, mem, cur, cur);
    }
  }

  lemma WithValid(root: nat, mem: Memory, p: nat, size: nat, t: Link, inRow: bool)
    requires Valid(root, mem) && Place(root, mem, p, size, t, inRow) && With.requires(root, mem, p, size, t, inRow)
    ensures var (root', mem') := With(root, mem, p, size, t, inRow);
      Valid(root', mem') && Sizes(mem') == Sizes(mem)[p := size]
  {
    hide With;
    hide RootOk;
    hide NextOk;
    hide BiggerOk;
    hide ParentOk;
    WithRootOk(root, mem, p, size, t, inRow);
    WithSizes(root, mem, p, size, t, inRow);
    var (root', mem') := With(root, mem, p, size, t, inRow);
    assert 0 !in mem' by { ValidRoot(root, mem); }
    forall n | n in mem' ensures NextOk(mem', n) && BiggerOk(mem', n) && ParentOk(root', mem', n) {
      WithNextOk(root, mem, p, size, t, inRow, n);
      WithParentOk(root, mem, p, size, t, inRow, n);
      if n == p {
        WithBiggerOkNew(root, mem, p, size, t, inRow);
      } else {
        WithBiggerOk(root, mem, p, size, t, inRow, n);
      }
    }
  }

  // ----- the set of (size, address) determines the structure

  lemma SameFirst(mem: Memory, mem': Memory, n: nat)
    requires Sizes(mem) == Sizes(mem')
    ensures n in mem <==> n in mem'
    ensures n in mem ==> mem[n].size == mem'[n].size
    ensures First(mem, n) <==> First(mem', n)
  {
    forall m | m in mem || m in mem' ensures m in mem && m in mem' && mem[m].size == mem'[m].size {
      assert m in Sizes(mem) <==> m in mem;
      assert m in Sizes(mem') <==> m in mem';
    }
    assert n in Sizes(mem) <==> n in mem;
    assert n in Sizes(mem') <==> n in mem';
  }

  lemma SameNext(root: nat, mem: Memory, root': nat, mem': Memory, n: nat)
    requires Valid(root, mem) && Valid(root', mem') && Sizes(mem) == Sizes(mem') && n in mem
    ensures n in mem' && mem[n].next == mem'[n].next
  {
    hide Valid;
    SameFirst(mem, mem', n);
    ValidAt(root, mem, n);
    ValidAt(root', mem', n);
    SameFirst(mem, mem', mem[n].next);
    SameFirst(mem, mem', mem'[n].next);
  }

  lemma SameBigger(root: nat, mem: Memory, root': nat, mem': Memory, n: nat)
    requires Valid(root, mem) && Valid(root', mem') && Sizes(mem) == Sizes(mem') && n in mem
    ensures n in mem' && mem[n].bigger == mem'[n].bigger
  {
    hide Valid;
    hide Sizes;
    SameFirst(mem, mem', n);
    ValidAt(root, mem, n);
    ValidAt(root', mem', n);
    SameFirst(mem, mem', mem[n].bigger);
    SameFirst(mem, mem', mem'[n].bigger);
  }

  lemma SameRoot(root: nat, mem: Memory, root': nat, mem': Memory)
    requires Valid(root, mem) && Valid(root', mem') && Sizes(mem) == Sizes(mem')
    ensures root == root'
  {
    hide Valid;
    hide Sizes;
    ValidRoot(root, mem);
    ValidRoot(root', mem');
    SameFirst(mem, mem', root);
    SameFirst(mem, mem', root');
  }

  /** Two structures over the same extents are the same structure, link by link. */
  lemma Canonical(root: nat, mem: Memory, root': nat, mem': Memory)
    requires Valid(root, mem) && Valid(root', mem') && Sizes(mem) == Sizes(mem')
    ensures root == root' && mem == mem'
  {
    hide Valid;
    SameRoot(root, mem, root', mem');
    forall n | n in mem ensures n in mem' && mem[n] == mem'[n] {
      SameNext(root, mem, root', mem', n);
      SameBigger(root, mem, root', mem', n);
      SameFirst(mem, mem', n);
      SameParent(root, mem, root', mem', n);
    }
    forall n | n in mem' ensures n in mem {
      SameFirst(mem, mem', n);
    }
  }

  lemma SameParent(root: nat, mem: Memory, root': nat, mem': Memory, n: nat)
    requires Valid(root, mem) && Valid(root', mem') && Sizes(mem) == Sizes(mem') && n in mem
    ensures n in mem' && mem[n].parent == mem'[n].parent
  {
    hide Valid;
    hide Sizes;
    SameFirst(mem, mem', n);
    SameRoot(root, mem, root', mem');
    var l := mem[n].parent;
    ValidAt(root, mem, n);
    ParentKind(root, mem, n);
    if l.Root? {
      OnePointer(root', mem', n, n);
    } else {
      SameNext(root, mem, root', mem', l.n);
      SameBigger(root, mem, root', mem', l.n);
      OnePointer(root', mem', n, l.n);
    }
  }

  // ----- walking along the rows

  /** `t` leads to the first row that may be large enough: the rows before it are all too small. */
  ghost predicate Walk(root: nat, mem: Memory, size: nat, t: Link) {
    var cur := Deref(root, mem, t);
    && (t.Root? || (t.Bigger? && First(mem, t.n) && mem[t.n].size < size))
    && (cur != 0 ==> First(mem, cur))
    && (forall m :: m in mem && mem[m].size >= size ==> cur != 0 && mem[cur].size <= mem[m].size)
  }

  lemma WalkStart(root: nat, mem: Memory, size: nat)
    requires Valid(root, mem)
    ensures Walk(root, mem, size, Root)
  {
    hide Valid;
    ValidRoot(root, mem);
  }

  lemma WalkOn(root: nat, mem: Memory, size: nat, cur: nat)
    requires Valid(root, mem) && First(mem, cur) && mem[cur].size < size
    ensures Walk(root, mem, size, Bigger(cur))
    ensures mem[cur].bigger != 0 ==> mem[cur].bigger in mem && mem[cur].size < mem[mem[cur].bigger].size
  {
    hide Valid;
    ValidAt(root, mem, cur);
  }

  /** The extents that are at least as large as `cur`. */
  ghost function Ahead(mem: Memory, cur: nat): set<nat> {
    set m | m in mem && cur in mem && mem[cur].size <= mem[m].size
  }

  lemma WalkPlace(root: nat, mem: Memory, p: nat, size: nat, t: Link)
    requires Valid(root, mem) && Walk(root, mem, size, t) && p !in mem && p != 0
    requires var cur := Deref(root, mem, t); cur != 0 ==> cur in mem && mem[cur].size >= size
    ensures
      var cur := Deref(root, mem, t);
      && (cur == 0 || mem[cur].size != size ==> Place(root, mem, p, size, t, false))
      && (cur != 0 && mem[cur].size == size && p < cur ==> Place(root, mem, p, size, t, true))
  {
    hide Valid;
  }

  lemma RowPlace(root: nat, mem: Memory, p: nat, size: nat, k: nat)
    requires Valid(root, mem) && p !in mem && p != 0 && k in mem && mem[k].size == size && k < p
    ensures mem[k].next != 0 ==> mem[k].next in mem && mem[mem[k].next].size == size && k < mem[k].next
    ensures mem[k].next == 0 || p < mem[k].next ==> Place(root, mem, p, size, Next(k), true)
  {
    hide Valid;
    ValidAt(root, mem, k);
  }

  // ----- the program

  class FreeList {
    var root: nat
    var node: Memory

    ghost predicate Ok()
      reads this
    {
      Valid(root, node)
    }

    constructor ()
      ensures Ok() && node == map[]
    {
      root, node := 0, map[];
    }

    /** fp_remove: delete any member. */
    method Remove(p: nat)
      requires Ok() && p in node
      modifies this
      ensures Ok()
      ensures Sizes(node) == Sizes(old(node)) - {p}
    {
      ghost var r0, m0 := root, node;
      Removable(r0, m0, p);
      WithoutValid(r0, m0, p);
      Neighbours(r0, m0, p);
      hide Valid;
      var n := node[p];
      node := node - {p};
      if n.next != 0 {
        if n.parent == Root { root := n.next; } else { node := Store(node, n.parent, n.next); }
        node := SetParent(node, n.next, n.parent);
        node := SetBigger(node, n.next, n.bigger);
        if n.bigger != 0 {
          node := SetParent(node, n.bigger, Bigger(n.next));
        }
      } else {
        if n.parent == Root { root := n.bigger; } else { node := Store(node, n.parent, n.bigger); }
        if n.bigger != 0 {
          node := SetParent(node, n.bigger, n.parent);
        }
      }
      assert (root, node) == Without(r0, m0, p);
    }

    /** The walk along the row heads with which fp_add and fp_find begin. */
    method Seek(size: nat) returns (t: Link, cur: nat)
      requires Ok()
      ensures cur == Deref(root, node, t) && Walk(root, node, size, t)
      ensures cur != 0 ==> cur in node && node[cur].size >= size
    {
      ValidRoot(root, node);
      WalkStart(root, node, size);
      hide Valid;
      hide RootOk;
      t, cur := Root, root;
      while cur != 0 && node[cur].size < size
        invariant Walk(root, node, size, t) && cur == Deref(root, node, t)
        decreases Ahead(node, cur)
      {
        WalkOn(root, node, size, cur);
        assert cur in Ahead(node, cur) && cur !in Ahead(node, node[cur].bigger);
        t := Bigger(cur);
        cur := node[cur].bigger;
      }
    }

    /** The walk along the row of the new extent's own size. */
    method SeekInRow(p: nat, size: nat, t0: Link, cur0: nat) returns (t: Link, cur: nat)
      requires Ok() && p !in node && p != 0
      requires cur0 == Deref(root, node, t0) && cur0 != 0 && cur0 in node && node[cur0].size == size
      requires p < cur0 ==> Place(root, node, p, size, t0, true)
      ensures cur == Deref(root, node, t) && Place(root, node, p, size, t, true)
    {
      hide Valid;
      hide Place;
      t, cur := t0, cur0;
      while cur != 0 && cur < p
        invariant cur == Deref(root, node, t) && (cur != 0 ==> cur in node && node[cur].size == size)
        invariant cur == 0 || cur > p ==> Place(root, node, p, size, t, true)
        decreases if cur != 0 && cur < p then p - cur else 0
      {
        RowPlace(root, node, p, size, cur);
        t := Next(cur);
        cur := node[cur].next;
      }
    }

    /** fp_add: insert an extent. */
    method Add(p: nat, size: nat)
      requires Ok() && p !in node && p != 0
      modifies this
      ensures Ok()
      ensures Sizes(node) == Sizes(old(node))[p := size]
    {
      hide Valid;
      hide Place;
      hide First;
      var t, cur := Seek(size);
      WalkPlace(root, node, p, size, t);
      hide Walk;
      var inRow := cur != 0 && node[cur].size == size;
      if inRow {
        t, cur := SeekInRow(p, size, t, cur);
      }
      Link(p, size, t, cur, inRow);
    }

    /** The assignments at the end of fp_add. */
    method Link(p: nat, size: nat, t: Link, cur: nat, inRow: bool)
      requires Ok() && Place(root, node, p, size, t, inRow) && cur == Deref(root, node, t)
      modifies this
      ensures Ok()
      ensures Sizes(node) == Sizes(old(node))[p := size]
    {
      ghost var r0, m0 := root, node;
      Addable(r0, m0, p, size, t, inRow);
      WithValid(r0, m0, p, size, t, inRow);
      hide Valid;
      hide NextOk;
      hide BiggerOk;
      hide First;
      var next, bigger := 0, 0;
      if inRow {
        next := cur;
        if next != 0 {
          bigger := node[next].bigger;
          if bigger != 0 {
            node := SetParent(node, bigger, Bigger(p));
            node := SetBigger(node, next, 0);
          }
          node := SetParent(node, next, Next(p));
        }
      } else {
        bigger := cur;
        if bigger != 0 {
          node := SetParent(node, bigger, Bigger(p));
        }
      }
      if t == Root { root := p; } else { node := Store(node, t, p); }
      node := node[p := Node(t, bigger, next, size)];
      assert (root, node) == With(r0, m0, p, size, t, inRow);
    }

    /** fp_find: remove and return the least extent, by size and then by address, that has at least
        `size` pages; 0 if there is none. */
    method Find(size: nat) returns (p: nat)
      requires Ok()
      modifies this
      ensures Ok()
      ensures p == 0 ==> node == old(node) && forall n :: n in node ==> node[n].size < size
      ensures p != 0 ==> p in old(node) && old(node)[p].size >= size && Sizes(node) == Sizes(old(node)) - {p}
      ensures p != 0 ==> forall n :: n in old(node) && old(node)[n].size >= size ==>
        old(node)[p].size < old(node)[n].size || (old(node)[p].size == old(node)[n].size && p <= n)
    {
      hide Valid;
      var t, cur := Seek(size);
      p := cur;
      if p != 0 {
        Remove(p);
      }
    }
  }
}
