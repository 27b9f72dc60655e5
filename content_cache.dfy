/**
 * The reference-counted thumbnail cache and its handle. An entry's `refs`
 * counts the holders beyond the first, so an entry exists exactly while
 * someone holds its thumbnail: the first `ref` inserts it (and asks for the
 * image), the last `unref` erases it. Pixmaps are values of the type
 * parameter `P`; emitted signals are recorded in `notices`.
 */
module ThumbnailCaches {
  import opened Wrappers
  import opened Contents

  datatype Item<P> = Item(refs: nat, pixmap: Option<P>)

  /** The signals `needs(thumbnail)` and `updated()`. */
  datatype CacheNotice = Needs(thumbnail: Thumbnail) | Updated

  /** `std::out_of_range` from a lookup of a thumbnail nobody holds. */
  datatype CacheError = OutOfRange

  type Items<P> = map<Thumbnail, Item<P>>

  /** How many handles hold `x`. */
  function Holders<P>(items: Items<P>, x: Thumbnail): nat {
    if x in items then items[x].refs + 1 else 0
  }

  /** `ref`: one more holder; a thumbnail seen for the first time starts without a pixmap. */
  function Refd<P>(items: Items<P>, x: Thumbnail): (r: Items<P>)
    ensures Holders(r, x) == Holders(items, x) + 1
    ensures r - {x} == items - {x}
    ensures x in items ==> r[x].pixmap == items[x].pixmap
    ensures x !in items ==> r[x].pixmap == None
  {
    if x in items then items[x := Item(items[x].refs + 1, items[x].pixmap)]
    else items[x := Item(0, None)]
  }

  /** `unref`: one holder fewer; the last one leaving erases the entry. */
  function Unrefd<P>(items: Items<P>, x: Thumbnail): (r: Items<P>)
    requires x in items
    ensures Holders(r, x) == Holders(items, x) - 1
    ensures r - {x} == items - {x}
    ensures x in r ==> r[x].pixmap == items[x].pixmap
  {
    if items[x].refs == 0 then items - {x}
    else items[x := Item(items[x].refs - 1, items[x].pixmap)]
  }

  /** `set`: only a held thumbnail takes the pixmap. */
  function WithPixmap<P>(items: Items<P>, x: Thumbnail, p: P): (r: Items<P>)
    ensures r.Keys == items.Keys
    ensures forall y :: y in r ==> Holders(r, y) == Holders(items, y)
    ensures x in r ==> r[x].pixmap == Some(p)
    ensures forall y :: y in r && y != x ==> r[y] == items[y]
  {
    if x in items then items[x := Item(items[x].refs, Some(p))] else items
  }

  /** Giving up a reference just taken restores the cache. */
  lemma RefUnrefCancel<P>(items: Items<P>, x: Thumbnail)
    ensures Unrefd(Refd(items, x), x) == items
  {
    if x !in items {
      assert Refd(items, x) - {x} == items;
    }
  }

  function RefN<P>(items: Items<P>, x: Thumbnail, n: nat): (r: Items<P>)
    ensures Holders(r, x) == Holders(items, x) + n
  {
    if n == 0 then items else Refd(RefN(items, x, n - 1), x)
  }

  function UnrefN<P>(items: Items<P>, x: Thumbnail, n: nat): Items<P>
    requires Holders(items, x) >= n
  {
    if n == 0 then items else UnrefN(Unrefd(items, x), x, n - 1)
  }

  /** `n` references taken and then given up leave the cache as it was, new key or not. */
  lemma {:induction false} RefsThenUnrefs<P>(items: Items<P>, x: Thumbnail, n: nat)
    ensures UnrefN(RefN(items, x, n), x, n) == items
  {
    if n > 0 {
      var before := RefN(items, x, n - 1);
      RefUnrefCancel(before, x);
      RefsThenUnrefs(items, x, n - 1);
    }
  }

  class ThumbnailCache<P> {
    var items: Items<P>
    var notices: seq<CacheNotice>

    constructor ()
      ensures items == map[] && notices == []
    {
      items := map[];
      notices := [];
    }

    /** `ref(x)`: a thumbnail not yet held is inserted and requested. */
    method Ref(x: Thumbnail)
      modifies this
      ensures items == Refd(old(items), x)
      ensures notices == old(notices) + (if x in old(items) then [] else [Needs(x)])
    {
      if x !in items {
        items := items[x := Item(0, None)];
        notices := notices + [Needs(x)];
      } else {
        items := items[x := Item(items[x].refs + 1, items[x].pixmap)];
      }
    }

    /** `unref(x)`; the thumbnail must be held. */
    method Unref(x: Thumbnail)
      requires x in items
      modifies this`items
      ensures items == Unrefd(old(items), x)
    {
      if items[x].refs == 0 {
        items := items - {x};
      } else {
        items := items[x := Item(items[x].refs - 1, items[x].pixmap)];
      }
    }

    /** `get(x)`: the pixmap of a held thumbnail. */
    method Get(x: Thumbnail) returns (r: Result<Option<P>, CacheError>)
      ensures r.Ok? <==> x in items
      ensures r.Ok? ==> r.value == items[x].pixmap
    {
      if x in items {
        r := Ok(items[x].pixmap);
      } else {
        r := Err(OutOfRange);
      }
    }

    /** `set(x, p)`: stores the pixmap and reports the update, for a held thumbnail only. */
    method Set(x: Thumbnail, p: P)
      modifies this
      ensures items == WithPixmap(old(items), x, p)
      ensures notices == old(notices) + (if x in old(items) then [Updated] else [])
    {
      if x in items {
        items := items[x := Item(items[x].refs, Some(p))];
        notices := notices + [Updated];
      }
    }
  }

  /** `ThumbnailRef`: a handle holding one reference on a cached thumbnail; a moved-from handle holds none. */
  class ThumbnailRef<P> {
    var content: Thumbnail
    var cache: ThumbnailCache?<P>

    /** A new handle takes a reference. */
    constructor (content: Thumbnail, cache: ThumbnailCache<P>)
      modifies cache
      ensures this.content == content && this.cache == cache
      ensures cache.items == Refd(old(cache.items), content)
      ensures cache.notices == old(cache.notices) + (if content in old(cache.items) then [] else [Needs(content)])
    {
      this.content := content;
      this.cache := cache;
      new;
      cache.Ref(content);
    }

    /** The copy constructor takes another reference on the same thumbnail. */
    constructor Copy(other: ThumbnailRef<P>)
      requires other.cache != null
      modifies other.cache
      ensures content == other.content && cache == other.cache
      ensures cache.items == Refd(old(other.cache.items), content)
    {
      content := other.content;
      cache := other.cache;
      new;
      cache.Ref(content);
    }

    /** The move constructor takes over the other handle's reference. */
    constructor Move(other: ThumbnailRef<P>)
      modifies other`cache
      ensures content == other.content && cache == old(other.cache) && other.cache == null
    {
      content := other.content;
      cache := other.cache;
      new;
      other.cache := null;
    }

    /** The destructor gives the reference back, if the handle still holds one. */
    method Release()
      requires cache != null ==> content in cache.items
      modifies cache
      ensures cache != null ==> cache.items == Unrefd(old(cache.items), content)
    {
      if cache != null {
        cache.Unref(content);
      }
    }

    /** Move assignment gives back the held reference and takes over the other handle's. */
    method MoveAssign(other: ThumbnailRef<P>)
      requires cache != null ==> content in cache.items
      modifies this, other`cache, cache
      ensures content == old(other.content)
      ensures cache == (if other == this then null else old(other.cache))
      ensures other.cache == null
      ensures old(cache) != null ==> old(cache).items == Unrefd(old(cache.items), old(content))
    {
      if cache != null {
        cache.Unref(content);
      }
      content := other.content;
      cache := other.cache;
      other.cache := null;
    }

    /**
     * Copy assignment as written: takes a reference on the other handle's
     * thumbnail, but never gives back the one this handle held.
     */
    method CopyAssign(other: ThumbnailRef<P>)
      requires other.cache != null
      modifies this, other.cache
      ensures content == old(other.content) && cache == old(other.cache)
      ensures cache.items == Refd(old(other.cache.items), content)
    {
      content := other.content;
      cache := other.cache;
      cache.Ref(content);
    }

    /** Copy assignment that also gives back the reference held before (taken first, so self-assignment is safe). */
    method CopyAssignReleasing(other: ThumbnailRef<P>)
      requires other.cache != null
      requires cache != null ==> content in cache.items
      modifies this, other.cache, cache
      ensures content == old(other.content) && cache == old(other.cache)
      ensures old(cache) == old(other.cache) ==>
        cache.items == Unrefd(Refd(old(other.cache.items), content), old(content))
      ensures old(cache) != old(other.cache) ==>
        && cache.items == Refd(old(other.cache.items), content)
        && (old(cache) != null ==> old(cache).items == Unrefd(old(cache.items), old(content)))
    {
      var previous, held := content, cache;
      content := other.content;
      cache := other.cache;
      cache.Ref(content);
      if held != null {
        held.Unref(previous);
      }
    }
  }

  /** Two handles on `t1` and `t2`, the first copy-copied from the second, then both destroyed. */
  function AfterCopyAsWritten<P>(t1: Thumbnail, t2: Thumbnail): Items<P> {
    var held: Items<P> := Refd(Refd(map[], t1), t2);
    var copied := Refd(held, t2);
    Unrefd(Unrefd(copied, t2), t2)
  }

  function AfterCopyReleasing<P>(t1: Thumbnail, t2: Thumbnail): Items<P> {
    var held: Items<P> := Refd(Refd(map[], t1), t2);
    var copied := Unrefd(Refd(held, t2), t1);
    Unrefd(Unrefd(copied, t2), t2)
  }

  /** As written, the first thumbnail stays cached with nobody holding it. */
  lemma CopyAssignLeaks<P>(t1: Thumbnail, t2: Thumbnail)
    requires t1 != t2
    ensures t1 in AfterCopyAsWritten<P>(t1, t2)
  {
  }

  /** Giving back the old reference leaves the cache empty once every handle is gone. */
  lemma CopyAssignReleasingEmpties<P>(t1: Thumbnail, t2: Thumbnail)
    requires t1 != t2
    ensures AfterCopyReleasing<P>(t1, t2) == map[]
  {
    var empty: Items<P> := map[];
    var a := Refd(empty, t1);
    var b := Refd(a, t2);
    var c := Refd(b, t2);
    var d := Unrefd(c, t1);
    assert d.Keys == {t2};
    var e := Unrefd(d, t2);
    assert e.Keys == {t2};
  }
}
