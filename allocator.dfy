/**
 * The allocator profile: the largest size requested per libxsvf memory class
 * during a run (h_realloc), and the drop-in static allocator main prints from
 * it with -r.  The printed C is modelled by its structure: the declared
 * buffers, the buflist and sizelist tables and the lookup rule.  The class
 * names are libxsvf_mem2str, an abstract function here.
 */
module Allocator {

  datatype Option<T> = None | Some(value: T)

  /** One h_realloc call: memory class and requested size. */
  datatype Request = Request(which: int, size: int)

  /** `static unsigned char buf_<className>[size];` */
  datatype BufferDecl = BufferDecl(className: string, size: int)

  /** The generated function: its name, the class count num, the static
      buffers, and the two tables indexed by class (a buffer name or null,
      its size or 0). */
  datatype StaticAllocator = StaticAllocator(
    funcName: string,
    num: int,
    buffers: seq<BufferDecl>,
    buflist: seq<Option<string>>,
    sizelist: seq<int>)

  function BufName(className: string): string
  {
    "buf_" + className
  }

  /** realloc_maxsize[w] after the requests `reqs`: it starts at zero and is
      raised whenever a larger size is requested, so it is the largest size
      requested for w, or 0 when no positive size was. */
  function HighWater(reqs: seq<Request>, w: int): (m: int)
    ensures m >= 0
    ensures forall k :: 0 <= k < |reqs| && reqs[k].which == w ==> reqs[k].size <= m
    ensures m == 0 || exists k :: 0 <= k < |reqs| && reqs[k].which == w && reqs[k].size == m
    decreases |reqs|
  {
    if reqs == [] then 0
    else
      var last, before := reqs[|reqs| - 1], HighWater(reqs[..|reqs| - 1], w);
      if last.which == w && last.size > before then last.size else before
  }

  /** `num`: one past the highest class with a positive maximum, or 0. */
  function UsedCount(ms: seq<int>): (num: nat)
    ensures num <= |ms|
    ensures num == 0 || ms[num - 1] > 0
    ensures forall i :: num <= i < |ms| ==> ms[i] <= 0
    decreases |ms|
  {
    if ms == [] then 0
    else if ms[|ms| - 1] > 0 then |ms|
    else UsedCount(ms[..|ms| - 1])
  }

  /** The buffer declarations, in class order, for the classes of `ms` with a
      positive maximum. */
  function Declared(ms: seq<int>, memName: int -> string): (ds: seq<BufferDecl>)
    ensures |ds| <= |ms|
    decreases |ms|
  {
    if ms == [] then []
    else
      var i := |ms| - 1;
      Declared(ms[..i], memName) + (if ms[i] > 0 then [BufferDecl(memName(i), ms[i])] else [])
  }

  /** The used classes of `ms` (positive maximum), in increasing order. */
  function UsedClasses(ms: seq<int>): (cs: seq<int>)
    ensures forall k :: 0 <= k < |cs| ==> 0 <= cs[k] < |ms| && ms[cs[k]] > 0
    ensures forall k, l :: 0 <= k < l < |cs| ==> cs[k] < cs[l]
    ensures forall i :: 0 <= i < |ms| && ms[i] > 0 ==> i in cs
    decreases |ms|
  {
    if ms == [] then []
    else
      var i := |ms| - 1;
      UsedClasses(ms[..i]) + (if ms[i] > 0 then [i] else [])
  }

  /** The k-th declaration is that of the k-th used class: one declaration
      per used class, in class order, and none for any other class. */
  lemma {:induction false} DeclaredInOrder(ms: seq<int>, memName: int -> string)
    ensures |Declared(ms, memName)| == |UsedClasses(ms)|
    ensures forall k :: 0 <= k < |UsedClasses(ms)| ==>
      Declared(ms, memName)[k] == BufferDecl(memName(UsedClasses(ms)[k]), ms[UsedClasses(ms)[k]])
    decreases |ms|
  {
    if ms != [] {
      var i := |ms| - 1;
      DeclaredInOrder(ms[..i], memName);
      var cs, ds := UsedClasses(ms[..i]), Declared(ms[..i], memName);
      forall k | 0 <= k < |cs|
        ensures ds[k] == BufferDecl(memName(cs[k]), ms[cs[k]])
      {
        assert ms[..i][cs[k]] == ms[cs[k]];
      }
    }
  }

  /** buflist: the class's buffer, or null for an unused class. */
  function BufList(ms: seq<int>, memName: int -> string): (bl: seq<Option<string>>)
    ensures |bl| == |ms|
    ensures forall i :: 0 <= i < |ms| ==>
      bl[i] == if ms[i] > 0 then Some(BufName(memName(i))) else None
    decreases |ms|
  {
    if ms == [] then []
    else
      var i := |ms| - 1;
      BufList(ms[..i], memName) + [if ms[i] > 0 then Some(BufName(memName(i))) else None]
  }

  /** sizelist: sizeof the class's buffer, or 0 for an unused class. */
  function SizeList(ms: seq<int>): (sl: seq<int>)
    ensures |sl| == |ms|
    ensures forall i :: 0 <= i < |ms| ==> sl[i] == if ms[i] > 0 then ms[i] else 0
    decreases |ms|
  {
    if ms == [] then []
    else
      var i := |ms| - 1;
      SizeList(ms[..i]) + [if ms[i] > 0 then ms[i] else 0]
  }

  /** What main prints with -r funcName, for the maxima ms. */
  function Generate(ms: seq<int>, funcName: string, memName: int -> string): (a: StaticAllocator)
    ensures a.funcName == funcName && 0 <= a.num <= |ms|
    ensures |a.buflist| == a.num && |a.sizelist| == a.num && |a.buffers| <= a.num
    ensures forall i :: a.num <= i < |ms| ==> ms[i] <= 0
  {
    var num := UsedCount(ms);
    StaticAllocator(funcName, num, Declared(ms[..num], memName),
                    BufList(ms[..num], memName), SizeList(ms[..num]))
  }

  /** The generated return statement:
      `which < num && size <= sizelist[which] ? buflist[which] : (void*)0`. */
  function Lookup(a: StaticAllocator, which: int, size: int): (r: Option<string>)
    requires 0 <= which && 0 <= a.num <= |a.sizelist| && a.num <= |a.buflist|
    ensures r != None ==> which < a.num && size <= a.sizelist[which]
    ensures which < a.num && size <= a.sizelist[which] ==> r == a.buflist[which]
  {
    if which < a.num && size <= a.sizelist[which] then a.buflist[which] else None
  }

  /** Every declared buffer belongs to a class with a positive maximum and
      has that maximum as its size. */
  lemma {:induction false} DeclaredSound(ms: seq<int>, memName: int -> string, d: BufferDecl)
    requires d in Declared(ms, memName)
    ensures exists i :: 0 <= i < |ms| && ms[i] > 0 && d == BufferDecl(memName(i), ms[i])
    decreases |ms|
  {
    var i := |ms| - 1;
    if d in Declared(ms[..i], memName) {
      DeclaredSound(ms[..i], memName, d);
      var j :| 0 <= j < |ms[..i]| && ms[..i][j] > 0 && d == BufferDecl(memName(j), ms[..i][j]);
      assert ms[j] == ms[..i][j];
    } else {
      assert ms[i] > 0 && d == BufferDecl(memName(i), ms[i]);
    }
  }

  /** Every class with a positive maximum gets its buffer declared. */
  lemma {:induction false} DeclaredComplete(ms: seq<int>, memName: int -> string, i: int)
    requires 0 <= i < |ms| && ms[i] > 0
    ensures BufferDecl(memName(i), ms[i]) in Declared(ms, memName)
    decreases |ms|
  {
    var last := |ms| - 1;
    if i < last {
      DeclaredComplete(ms[..last], memName, i);
      assert ms[..last][i] == ms[i];
    }
  }

  /** The generated allocator declares a buffer for exactly the used classes,
      and its tables have num entries. */
  lemma GeneratedShape(ms: seq<int>, funcName: string, memName: int -> string)
    ensures var a := Generate(ms, funcName, memName);
      && |a.buflist| == a.num && |a.sizelist| == a.num
      && (forall i :: 0 <= i < |ms| && ms[i] > 0 ==> BufferDecl(memName(i), ms[i]) in a.buffers)
      && (forall d :: d in a.buffers ==>
            exists i :: 0 <= i < |ms| && ms[i] > 0 && d == BufferDecl(memName(i), ms[i]))
  {
    var a := Generate(ms, funcName, memName);
    var num := a.num;
    forall i | 0 <= i < |ms| && ms[i] > 0
      ensures BufferDecl(memName(i), ms[i]) in a.buffers
    {
      assert i < num;
      DeclaredComplete(ms[..num], memName, i);
      assert ms[..num][i] == ms[i];
    }
    forall d | d in a.buffers
      ensures exists i :: 0 <= i < |ms| && ms[i] > 0 && d == BufferDecl(memName(i), ms[i])
    {
      DeclaredSound(ms[..num], memName, d);
      var j :| 0 <= j < num && ms[..num][j] > 0 && d == BufferDecl(memName(j), ms[..num][j]);
      assert ms[j] == ms[..num][j];
    }
  }

  /** The generated lookup returns class w's buffer exactly when w is used
      and the size fits its maximum; otherwise null. */
  lemma LookupExactly(ms: seq<int>, funcName: string, memName: int -> string, which: int, size: int)
    requires 0 <= which
    ensures Lookup(Generate(ms, funcName, memName), which, size)
      == if which < |ms| && ms[which] > 0 && size <= ms[which]
         then Some(BufName(memName(which))) else None
  {
    var num := UsedCount(ms);
    if which < num {
      assert ms[..num][which] == ms[which];
    }
  }

  /** The point of the profile: replayed against the same run, the generated
      allocator serves every positive-size request the run made. */
  lemma ServesEveryRequest(reqs: seq<Request>, ms: seq<int>, funcName: string,
                           memName: int -> string, k: int)
    requires forall w :: 0 <= w < |ms| ==> ms[w] == HighWater(reqs, w)
    requires 0 <= k < |reqs| && 0 <= reqs[k].which < |ms| && reqs[k].size > 0
    ensures Lookup(Generate(ms, funcName, memName), reqs[k].which, reqs[k].size)
      == Some(BufName(memName(reqs[k].which)))
  {
    LookupExactly(ms, funcName, memName, reqs[k].which, reqs[k].size);
  }

  /** Maxima A: 10, B: 0, C: 3 declare buffers for A and C only, and A's
      buffer serves every size up to 10. */
  lemma GenerateExample(ms: seq<int>, memName: int -> string, size: int)
    requires ms == [10, 0, 3] && size <= 10
    ensures Generate(ms, "f", memName).buffers
      == [BufferDecl(memName(0), 10), BufferDecl(memName(2), 3)]
    ensures Lookup(Generate(ms, "f", memName), 0, size) == Some(BufName(memName(0)))
    ensures Lookup(Generate(ms, "f", memName), 1, size) == None
  {
    assert UsedCount(ms) == 3;
    assert ms[..3] == ms && ms[..2] == [10, 0] && [10, 0][..1] == [10] && [10][..0] == [];
    assert Declared([10], memName) == [BufferDecl(memName(0), 10)];
    assert Declared([10, 0], memName) == [BufferDecl(memName(0), 10)];
    assert Declared(ms, memName) == [BufferDecl(memName(0), 10), BufferDecl(memName(2), 3)];
    LookupExactly(ms, "f", memName, 0, size);
    LookupExactly(ms, "f", memName, 1, size);
  }

  class AllocProfile {
    /** realloc_maxsize[LIBXSVF_MEM_NUM] */
    const maxSize: array<int>
    /** Every h_realloc call so far. */
    ghost var requests: seq<Request>

    ghost predicate Valid()
      reads this, maxSize
    {
      forall w :: 0 <= w < maxSize.Length ==> maxSize[w] == HighWater(requests, w)
    }

    /** Process start: the static table is zero. */
    constructor (classes: nat)
      ensures Valid() && fresh(maxSize) && maxSize.Length == classes && requests == []
    {
      maxSize := new int[classes](_ => 0);
      requests := [];
    }

    /** The bookkeeping of h_realloc: raise the class's maximum to `size`
        when larger.  The reallocation itself is the platform's. */
    method Record(which: int, size: int)
      requires Valid() && 0 <= which < maxSize.Length
      modifies this, maxSize
      ensures Valid()
      ensures requests == old(requests) + [Request(which, size)]
      ensures maxSize[which] == if size > old(maxSize[which]) then size else old(maxSize[which])
      ensures forall w :: 0 <= w < maxSize.Length && w != which ==> maxSize[w] == old(maxSize[w])
    {
      if size > maxSize[which] {
        maxSize[which] := size;
      }
      requests := requests + [Request(which, size)];
      assert requests[..|requests| - 1] == old(requests);
    }

    /** The -r block of main: count the used classes, then print the buffer
        declarations, buflist and sizelist over the first num classes. */
    method Emit(funcName: string, memName: int -> string) returns (a: StaticAllocator)
      requires Valid()
      ensures a == Generate(maxSize[..], funcName, memName)
    {
      var num := CountUsed();
      var buffers := EmitBuffers(num, memName);
      var buflist := EmitBufList(num, memName);
      var sizelist := EmitSizeList(num);
      a := StaticAllocator(funcName, num, buffers, buflist, sizelist);
    }

    /** The loop finding num. */
    method CountUsed() returns (num: int)
      ensures num == UsedCount(maxSize[..])
    {
      num := 0;
      for i := 0 to maxSize.Length
        invariant num == UsedCount(maxSize[..i])
      {
        assert maxSize[..i + 1][..i] == maxSize[..i];
        if maxSize[i] > 0 {
          num := i + 1;
        }
      }
      assert maxSize[..maxSize.Length] == maxSize[..];
    }

    /** The loop printing one static buffer per used class. */
    method EmitBuffers(num: int, memName: int -> string) returns (buffers: seq<BufferDecl>)
      requires 0 <= num <= maxSize.Length
      ensures buffers == Declared(maxSize[..num], memName)
    {
      buffers := [];
      for i := 0 to num
        invariant buffers == Declared(maxSize[..i], memName)
      {
        assert maxSize[..i + 1][..i] == maxSize[..i];
        if maxSize[i] > 0 {
          buffers := buffers + [BufferDecl(memName(i), maxSize[i])];
        }
      }
    }

    /** The loop printing the buflist initialiser. */
    method EmitBufList(num: int, memName: int -> string) returns (buflist: seq<Option<string>>)
      requires 0 <= num <= maxSize.Length
      ensures buflist == BufList(maxSize[..num], memName)
    {
      buflist := [];
      for i := 0 to num
        invariant buflist == BufList(maxSize[..i], memName)
      {
        assert maxSize[..i + 1][..i] == maxSize[..i];
        if maxSize[i] > 0 {
          buflist := buflist + [Some(BufName(memName(i)))];
        } else {
          buflist := buflist + [None];
        }
      }
    }

    /** The loop printing the sizelist initialiser. */
    method EmitSizeList(num: int) returns (sizelist: seq<int>)
      requires 0 <= num <= maxSize.Length
      ensures sizelist == SizeList(maxSize[..num])
    {
      sizelist := [];
      for i := 0 to num
        invariant sizelist == SizeList(maxSize[..i])
      {
        assert maxSize[..i + 1][..i] == maxSize[..i];
        if maxSize[i] > 0 {
          sizelist := sizelist + [maxSize[i]];
        } else {
          sizelist := sizelist + [0];
        }
      }
    }
  }
}
