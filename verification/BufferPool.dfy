/**
 The buffer pool: two parallel vectors that implement a bounded map from page ids to
 page buffers.
 */
module BufferPool {
  import opened Text
  import opened Wal

  datatype PageId = PageId(fileId: nat, pageNo: nat)

  predicate NoDuplicates<T(==)>(s: seq<T>) {
    forall i, j :: 0 <= i < j < |s| ==> s[i] != s[j]
  }

  /** The map that parallel key and value vectors stand for. */
  function Zip(ids: seq<PageId>, pages: seq<array<byte>>): map<PageId, array<byte>>
    requires |ids| == |pages|
  {
    if ids == [] then map[]
    else
      var n := |ids| - 1;
      Zip(ids[..n], pages[..n])[ids[n] := pages[n]]
  }

  lemma {:induction false} ZipLookup(ids: seq<PageId>, pages: seq<array<byte>>)
    requires |ids| == |pages| && NoDuplicates(ids)
    ensures forall i :: 0 <= i < |ids| ==> ids[i] in Zip(ids, pages) && Zip(ids, pages)[ids[i]] == pages[i]
    ensures forall id :: id in Zip(ids, pages) ==> id in ids
    ensures |Zip(ids, pages)| == |ids|
  {
    if ids != [] {
      var n := |ids| - 1;
      ZipLookup(ids[..n], pages[..n]);
      var m := Zip(ids[..n], pages[..n]);
      assert ids[n] !in ids[..n];
      assert Zip(ids, pages).Keys == m.Keys + {ids[n]};
      assert |Zip(ids, pages)| == |Zip(ids, pages).Keys| && |m| == |m.Keys|;
    }
  }

  lemma ZipAppend(ids: seq<PageId>, pages: seq<array<byte>>, id: PageId, page: array<byte>)
    requires |ids| == |pages| && NoDuplicates(ids) && NoDuplicates(pages) && id !in ids && page !in pages
    ensures Zip(ids + [id], pages + [page]) == Zip(ids, pages)[id := page]
    ensures NoDuplicates(ids + [id]) && NoDuplicates(pages + [page])
  {
    assert (ids + [id])[..|ids|] == ids && (pages + [page])[..|pages|] == pages;
  }

  function Erase<T>(s: seq<T>, k: nat): (r: seq<T>)
    requires k < |s|
    ensures |r| == |s| - 1 && forall i :: 0 <= i < |r| ==> r[i] == s[if i < k then i else i + 1]
  {
    s[..k] + s[k + 1..]
  }

  lemma EraseKeepsDistinct<T>(s: seq<T>, k: nat)
    requires NoDuplicates(s) && k < |s|
    ensures NoDuplicates(Erase(s, k))
  {
  }

  lemma EraseBeforeLast<T>(s: seq<T>, k: nat)
    requires k < |s| - 1
    ensures var n := |s| - 1; Erase(s, k)[..n - 1] == Erase(s[..n], k) && Erase(s, k)[n - 1] == s[n]
  {
  }

  /** Erasing one index from both vectors removes one key and leaves every other page where it was. */
  lemma {:induction false} ZipErase(ids: seq<PageId>, pages: seq<array<byte>>, k: nat)
    requires |ids| == |pages| && NoDuplicates(ids) && k < |ids|
    ensures Zip(Erase(ids, k), Erase(pages, k)) == Zip(ids, pages) - {ids[k]}
    decreases |ids|
  {
    hide Erase;
    var n := |ids| - 1;
    var m := Zip(ids[..n], pages[..n]);
    if k == n {
      ZipLookup(ids[..n], pages[..n]);
      assert Erase(ids, k) == ids[..n] && Erase(pages, k) == pages[..n];
      assert m[ids[n] := pages[n]] - {ids[n]} == m;
    } else {
      ZipErase(ids[..n], pages[..n], k);
      EraseBeforeLast(ids, k);
      EraseBeforeLast(pages, k);
    }
  }

  class Pool {
    const pageSize: nat
    const capacity: nat
    var pinned: seq<PageId>
    var store: seq<array<byte>>

    /** The vectors are aligned, ids and buffers are distinct, and the pool is not over-full. */
    ghost predicate Valid()
      reads this
    {
      && |store| == |pinned| <= capacity
      && NoDuplicates(pinned)
      && NoDuplicates(store)
      && forall i :: 0 <= i < |store| ==> store[i].Length == pageSize
    }

    ghost function Pages(): map<PageId, array<byte>>
      reads this
      requires Valid()
    {
      Zip(pinned, store)
    }

    constructor (pageSize: nat, capacity: nat)
      ensures Valid() && Pages() == map[] && this.pageSize == pageSize && this.capacity == capacity
    {
      this.pageSize := pageSize;
      this.capacity := capacity;
      pinned, store := [], [];
    }

    method IndexOf(id: PageId) returns (index: nat)
      ensures index <= |pinned| && (index < |pinned| ==> pinned[index] == id)
      ensures index == |pinned| <==> id !in pinned
    {
      index := 0;
      while index < |pinned| && pinned[index] != id
        invariant index <= |pinned| && id !in pinned[..index]
      {
        assert pinned[..index + 1] == pinned[..index] + [pinned[index]];
        index := index + 1;
      }
      assert index == |pinned| ==> pinned[..index] == pinned;
    }

    /** `None` is the "buffer pool full" exception. No buffer's bytes are touched. */
    method Pin(id: PageId) returns (page: Option<array<byte>>)
      requires Valid()
      modifies this
      ensures Valid()
      ensures id in old(Pages()) ==> page == Some(old(Pages())[id]) && Pages() == old(Pages())
      ensures id !in old(Pages()) && |old(Pages())| >= capacity ==> page == None && Pages() == old(Pages())
      ensures id !in old(Pages()) && |old(Pages())| < capacity ==>
        && page.Some? && fresh(page.value) && Pages() == old(Pages())[id := page.value]
        && page.value.Length == pageSize && forall i :: 0 <= i < pageSize ==> page.value[i] == 0
    {
      hide Zip, NoDuplicates;
      ZipLookup(pinned, store);
      var index := IndexOf(id);
      if index < |pinned| {
        return Some(store[index]);
      }
      if |pinned| >= capacity {
        return None;
      }
      var fill := new byte[pageSize](_ => 0);
      ZipAppend(pinned, store, id, fill);
      store := store + [fill];
      pinned := pinned + [id];
      page := Some(fill);
    }

    /** Only the named page goes; every other page keeps its buffer, and no buffer's bytes are touched. */
    method Unpin(id: PageId)
      requires Valid()
      modifies this
      ensures Valid() && Pages() == old(Pages()) - {id}
    {
      hide Zip, NoDuplicates, Erase;
      ZipLookup(pinned, store);
      var index := IndexOf(id);
      if index == |pinned| {
        assert Pages() - {id} == Pages();
        return;
      }
      ZipErase(pinned, store, index);
      EraseKeepsDistinct(pinned, index);
      EraseKeepsDistinct(store, index);
      pinned := Erase(pinned, index);
      store := Erase(store, index);
    }

    method PinnedCount() returns (n: nat)
      requires Valid()
      ensures n == |Pages()|
    {
      ZipLookup(pinned, store);
      n := |pinned|;
    }
  }

  /** A page that is written, let go and pinned again comes back zeroed: the pool writes nothing back. */
  method RepinnedPageIsZero(pool: Pool, id: PageId, at: nat, b: byte) returns (page: Option<array<byte>>)
    requires pool.Valid() && id !in pool.Pages() && |pool.Pages()| < pool.capacity && at < pool.pageSize
    modifies pool
    ensures pool.Valid() && page.Some? && pool.Pages() == old(pool.Pages())[id := page.value]
    ensures page.value.Length == pool.pageSize && forall i :: 0 <= i < pool.pageSize ==> page.value[i] == 0
  {
    ghost var before := pool.Pages();
    var first := pool.Pin(id);
    first.value[at] := b;
    pool.Unpin(id);
    assert before[id := first.value] - {id} == before;
    page := pool.Pin(id);
  }
}
