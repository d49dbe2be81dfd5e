/** The view state of the invitation page (component `Home` in app/page.tsx):
    three independent overlay flags, a cursor into the fixed photo gallery,
    the list of click sparkles waiting for their removal timer, and the last
    pointer position. The state updaters the handlers pass to React are pure
    expressions and are modelled as functions; the component is a class whose
    methods are the event handlers. */
module Page {

  datatype Photo = Photo(id: int, src: string, alt: string)

  /** The compiled-in gallery, in display order. */
  const GalleryPhotos: seq<Photo> := [
    Photo(1, "https://images.unsplash.com/photo-1519741497674-611481863552?q=80&w=600&auto=format&fit=crop",
          "Sarah and John on beach"),
    Photo(2, "https://images.unsplash.com/photo-1529636798458-92182e662485?q=80&w=600&auto=format&fit=crop",
          "Sarah and John in park"),
    Photo(3, "https://images.unsplash.com/photo-1537907510278-a5a2191f146a?q=80&w=600&auto=format&fit=crop",
          "Sarah and John at sunset"),
    Photo(4, "https://images.unsplash.com/photo-1583939003579-730e3918a45a?q=80&w=600&auto=format&fit=crop",
          "Sarah and John hiking"),
    Photo(5, "https://images.unsplash.com/photo-1591604466107-ec97de577aff?q=80&w=600&auto=format&fit=crop",
          "Sarah and John at dinner")
  ]

  datatype Point = Point(x: int, y: int)

  /** A click marker; `id` is the click's timestamp, so two sparkles may share it. */
  datatype Sparkle = Sparkle(x: int, y: int, id: int)

  // ---------------------------------------------------------------------
  // Gallery cursor

  /** The `nextPhoto` updater: the last index wraps to the first. On a valid
      index it is the successor modulo the gallery size. */
  function NextIndex(i: int, n: int): (r: int)
    ensures 0 <= i < n ==> 0 <= r < n && r == (i + 1) % n
  {
    if i == n - 1 then 0 else i + 1
  }

  /** The `prevPhoto` updater: the first index wraps to the last. On a valid
      index it is the predecessor modulo the gallery size. */
  function PrevIndex(i: int, n: int): (r: int)
    ensures 0 <= i < n ==> 0 <= r < n && r == (i - 1 + n) % n
  {
    if i == 0 then n - 1 else i - 1
  }

  /** Stepping back undoes stepping forward, and the other way round. */
  lemma PrevNextInverse(i: int, n: int)
    requires 0 <= i < n
    ensures PrevIndex(NextIndex(i, n), n) == i
    ensures NextIndex(PrevIndex(i, n), n) == i
  {
  }

  /** The cursor after `k` presses of the "next" arrow, starting from `i`. */
  function NextSteps(i: int, k: nat, n: int): int
    decreases k
  {
    if k == 0 then i else NextSteps(NextIndex(i, n), k - 1, n)
  }

  lemma {:induction false} NextStepsAdd(i: int, a: nat, b: nat, n: int)
    ensures NextSteps(i, a + b, n) == NextSteps(NextSteps(i, a, n), b, n)
    decreases a
  {
    if a > 0 {
      NextStepsAdd(NextIndex(i, n), a - 1, b, n);
    }
  }

  /** Before the last photo is reached, "next" just counts up. */
  lemma {:induction false} NextStepsNoWrap(i: int, k: nat, n: int)
    requires 0 <= i && i + k < n
    ensures NextSteps(i, k, n) == i + k
    decreases k
  {
    if k > 0 {
      NextStepsNoWrap(i + 1, k - 1, n);
    }
  }

  /** Any number of "next" presses keeps the cursor on a photo. */
  lemma {:induction false} NextStepsInRange(i: int, k: nat, n: int)
    requires 0 <= i < n
    ensures 0 <= NextSteps(i, k, n) < n
    decreases k
  {
    if k > 0 {
      NextStepsInRange(NextIndex(i, n), k - 1, n);
    }
  }

  /** Pressing "next" as many times as there are photos (five for the
      compiled-in gallery) comes back to the photo one started from. */
  lemma {:induction false} NextStepsFullCycle(i: int, n: int)
    requires 0 <= i < n
    ensures NextSteps(i, n, n) == i
  {
    var toLast := n - 1 - i;
    NextStepsNoWrap(i, toLast, n);
    NextStepsAdd(i, toLast, 1 + i, n);
    NextStepsAdd(n - 1, 1, i, n);
    NextStepsNoWrap(0, i, n);
  }

  // ---------------------------------------------------------------------
  // Sparkles

  /** The click updater `[...prev, newSparkle]`. */
  function AddSparkle(prev: seq<Sparkle>, s: Sparkle): (r: seq<Sparkle>)
    ensures |r| == |prev| + 1
    ensures r[..|prev|] == prev && r[|prev|] == s
  {
    prev + [s]
  }

  /** The timeout updater `prev.filter(sparkle => sparkle.id !== id)`: every
      sparkle with that id goes, every other one stays. */
  function RemoveById(prev: seq<Sparkle>, id: int): (r: seq<Sparkle>)
    ensures forall s :: s in r <==> s in prev && s.id != id
    ensures |r| <= |prev|
    ensures (forall k :: 0 <= k < |prev| ==> prev[k].id != id) ==> r == prev
  {
    if prev == [] then []
    else if prev[0].id != id then [prev[0]] + RemoveById(prev[1..], id)
    else RemoveById(prev[1..], id)
  }

  /** Removal works piecewise, so the survivors keep their relative order. */
  lemma {:induction false} RemoveByIdAppend(a: seq<Sparkle>, b: seq<Sparkle>, id: int)
    ensures RemoveById(a + b, id) == RemoveById(a, id) + RemoveById(b, id)
    decreases |a|
  {
    if a == [] {
      assert a + b == b;
    } else {
      assert (a + b)[0] == a[0];
      assert (a + b)[1..] == a[1..] + b;
      RemoveByIdAppend(a[1..], b, id);
    }
  }

  /** Every sparkle with another id is kept as many times as it occurred. */
  lemma {:induction false} RemoveByIdKeepsOthers(prev: seq<Sparkle>, id: int, s: Sparkle)
    requires s.id != id
    ensures multiset(RemoveById(prev, id))[s] == multiset(prev)[s]
    decreases |prev|
  {
    if prev != [] {
      RemoveByIdKeepsOthers(prev[1..], id, s);
      assert prev == [prev[0]] + prev[1..];
    }
  }

  /** Expiring an id twice is the same as expiring it once. */
  lemma RemoveByIdIdempotent(prev: seq<Sparkle>, id: int)
    ensures RemoveById(RemoveById(prev, id), id) == RemoveById(prev, id)
  {
  }

  /** Two expiries with different ids do not interfere: either order leaves
      the same list. */
  lemma {:induction false} RemoveByIdCommutes(prev: seq<Sparkle>, j: int, k: int)
    ensures RemoveById(RemoveById(prev, j), k) == RemoveById(RemoveById(prev, k), j)
    decreases |prev|
  {
    if prev != [] {
      RemoveByIdCommutes(prev[1..], j, k);
      RemoveByIdAppend([prev[0]], prev[1..], j);
      RemoveByIdAppend([prev[0]], prev[1..], k);
      RemoveByIdAppend(RemoveById([prev[0]], j), RemoveById(prev[1..], j), k);
      RemoveByIdAppend(RemoveById([prev[0]], k), RemoveById(prev[1..], k), j);
      assert [prev[0]][1..] == [];
      assert [prev[0]] + prev[1..] == prev;
    }
  }

  /** The removal scheduled by a click takes out that click's sparkle (and any
      other with the same timestamp) and leaves the rest as before the click. */
  lemma ExpireUndoesClick(prev: seq<Sparkle>, s: Sparkle)
    ensures RemoveById(AddSparkle(prev, s), s.id) == RemoveById(prev, s.id)
  {
    RemoveByIdAppend(prev, [s], s.id);
    assert [s][1..] == [];
  }

  // ---------------------------------------------------------------------
  // The component

  class Home {
    var isOpen: bool
    var mousePosition: Point
    var sparkles: seq<Sparkle>
    var currentPhotoIndex: int
    var isGalleryOpen: bool
    var isMapOpen: bool
    /** Ids of the removal timeouts scheduled by clicks and not yet fired. */
    var timers: multiset<int>

    /** The cursor is on a photo, and every sparkle on screen still has a
        removal pending, so none of them outlives its timers. */
    ghost predicate Valid()
      reads this
    {
      0 <= currentPhotoIndex < |GalleryPhotos| &&
      forall s :: s in sparkles ==> s.id in timers
    }

    constructor ()
      ensures Valid()
      ensures !isOpen && !isGalleryOpen && !isMapOpen
      ensures currentPhotoIndex == 0 && sparkles == [] && timers == multiset{}
      ensures mousePosition == Point(0, 0)
    {
      isOpen := false;
      mousePosition := Point(0, 0);
      sparkles := [];
      currentPhotoIndex := 0;
      isGalleryOpen := false;
      isMapOpen := false;
      timers := multiset{};
    }

    /** "Open Invitation". */
    method OpenInvitation()
      requires Valid()
      modifies this`isOpen
      ensures Valid() && isOpen
    {
      isOpen := true;
    }

    /** The "Close" button of the details panel. */
    method CloseInvitation()
      requires Valid()
      modifies this`isOpen
      ensures Valid() && !isOpen
    {
      isOpen := false;
    }

    /** A click on the gallery preview. */
    method OpenGallery()
      requires Valid()
      modifies this`isGalleryOpen
      ensures Valid() && isGalleryOpen
    {
      isGalleryOpen := true;
    }

    /** A click on the gallery backdrop or its close icon. */
    method CloseGallery()
      requires Valid()
      modifies this`isGalleryOpen
      ensures Valid() && !isGalleryOpen
    {
      isGalleryOpen := false;
    }

    /** "View on map". */
    method OpenMap()
      requires Valid()
      modifies this`isMapOpen
      ensures Valid() && isMapOpen
    {
      isMapOpen := true;
    }

    /** A click on the map backdrop, its close icon or its "Close" button. */
    method CloseMap()
      requires Valid()
      modifies this`isMapOpen
      ensures Valid() && !isMapOpen
    {
      isMapOpen := false;
    }

    /** The right arrow of the gallery. */
    method NextPhoto()
      requires Valid()
      modifies this`currentPhotoIndex
      ensures Valid()
      ensures currentPhotoIndex == NextIndex(old(currentPhotoIndex), |GalleryPhotos|)
    {
      currentPhotoIndex := NextIndex(currentPhotoIndex, |GalleryPhotos|);
    }

    /** The left arrow of the gallery. */
    method PrevPhoto()
      requires Valid()
      modifies this`currentPhotoIndex
      ensures Valid()
      ensures currentPhotoIndex == PrevIndex(old(currentPhotoIndex), |GalleryPhotos|)
    {
      currentPhotoIndex := PrevIndex(currentPhotoIndex, |GalleryPhotos|);
    }

    /** A thumbnail; the index comes from mapping over the gallery. */
    method SelectPhoto(index: int)
      requires Valid() && 0 <= index < |GalleryPhotos|
      modifies this`currentPhotoIndex
      ensures Valid() && currentPhotoIndex == index
      ensures CurrentPhoto() == GalleryPhotos[index]
    {
      currentPhotoIndex := index;
    }

    /** A pointer move anywhere in the window; the last one wins. */
    method MouseMove(x: int, y: int)
      requires Valid()
      modifies this`mousePosition
      ensures Valid() && mousePosition == Point(x, y)
    {
      mousePosition := Point(x, y);
    }

    /** A click on the page: one sparkle at the click position, with the
        caller's timestamp as id, and a removal timeout for that id. */
    method Click(x: int, y: int, id: int)
      requires Valid()
      modifies this`sparkles, this`timers
      ensures Valid()
      ensures sparkles == AddSparkle(old(sparkles), Sparkle(x, y, id))
      ensures timers == old(timers) + multiset{id}
    {
      sparkles := AddSparkle(sparkles, Sparkle(x, y, id));
      timers := timers + multiset{id};
    }

    /** A removal timeout for `id` fires. */
    method Expire(id: int)
      requires Valid() && id in timers
      modifies this`sparkles, this`timers
      ensures Valid()
      ensures sparkles == RemoveById(old(sparkles), id)
      ensures timers == old(timers) - multiset{id}
    {
      sparkles := RemoveById(sparkles, id);
      timers := timers - multiset{id};
    }

    /** The counter under the photo, "i / n", as its two numbers. */
    function PhotoCounter(): (r: (int, int))
      reads this
      requires Valid()
      ensures 1 <= r.0 <= r.1 == |GalleryPhotos|
      ensures r.0 - 1 == currentPhotoIndex
    {
      (currentPhotoIndex + 1, |GalleryPhotos|)
    }

    /** The photo the gallery shows; its compiled-in id is the number the
        counter displays. */
    function CurrentPhoto(): (p: Photo)
      reads this
      requires Valid()
      ensures p in GalleryPhotos
      ensures p.id == PhotoCounter().0
    {
      GalleryPhotos[currentPhotoIndex]
    }
  }

  /** While a sparkle is on screen some removal is still pending, so once
      every scheduled timeout has fired no sparkle is left. */
  lemma PendingWhileVisible(h: Home)
    requires h.Valid()
    ensures h.sparkles != [] ==> h.timers != multiset{}
  {
    if h.sparkles != [] {
      assert h.sparkles[0] in h.sparkles;
    }
  }

  /** Opening the details and closing them again leaves them closed and the
      other overlays as they were. */
  method OpenThenClose(h: Home)
    requires h.Valid()
    modifies h
    ensures h.Valid() && !h.isOpen
    ensures h.isGalleryOpen == old(h.isGalleryOpen) && h.isMapOpen == old(h.isMapOpen)
  {
    h.OpenInvitation();
    h.CloseInvitation();
  }

  /** Opening the details, then the gallery, then closing the gallery leaves
      the details open: the flags are independent. */
  method GalleryInsideDetails(h: Home)
    requires h.Valid()
    modifies h
    ensures h.Valid() && h.isOpen && !h.isGalleryOpen
    ensures h.isMapOpen == old(h.isMapOpen)
  {
    h.OpenInvitation();
    h.OpenGallery();
    h.CloseGallery();
  }

  /** Five presses of the right arrow come back to the starting photo. */
  method FullGalleryTour(h: Home)
    requires h.Valid()
    modifies h
    ensures h.Valid() && h.currentPhotoIndex == old(h.currentPhotoIndex)
  {
    ghost var start := h.currentPhotoIndex;
    h.NextPhoto();
    h.NextPhoto();
    h.NextPhoto();
    h.NextPhoto();
    h.NextPhoto();
    NextStepsFullCycle(start, |GalleryPhotos|);
  }
}
