/** The two pieces of page logic that are plain arithmetic and string rules: the
    services-page slideshow's index stepping over its four slides, and the
    navigation bar's choice of the link to mark active. */
module Navigation {
  import opened JsText

  // ---------------------------------------------------------------- slideshow

  const SlideCount: nat := 4

  /** `nextSlide`: `(index + 1) % total`. */
  function NextSlide(index: nat): (next: nat)
    requires index < SlideCount
    ensures next < SlideCount
    ensures next == index + 1 || (index == SlideCount - 1 && next == 0)
  {
    (index + 1) % SlideCount
  }

  /** `prevSlide`: `(index - 1 + total) % total`; both operands are non-negative,
      so the truncating `%` of the script and Dafny's `%` agree. */
  function PrevSlide(index: nat): (prev: nat)
    requires index < SlideCount
    ensures prev < SlideCount
    ensures prev + 1 == index || (index == 0 && prev == SlideCount - 1)
  {
    (index - 1 + SlideCount) % SlideCount
  }

  /** The previous button undoes the next button, and the other way round. */
  lemma PrevUndoesNext(index: nat)
    requires index < SlideCount
    ensures PrevSlide(NextSlide(index)) == index
    ensures NextSlide(PrevSlide(index)) == index
  {
  }

  /** The slide shown after `ticks` steps of the three-second timer. */
  function Advance(index: nat, ticks: nat): (r: nat)
    requires index < SlideCount
    ensures r < SlideCount
  {
    if ticks == 0 then index else NextSlide(Advance(index, ticks - 1))
  }

  lemma {:induction false} AdvanceIsModular(index: nat, ticks: nat)
    requires index < SlideCount
    ensures Advance(index, ticks) == (index + ticks) % SlideCount
  {
    if ticks > 0 {
      AdvanceIsModular(index, ticks - 1);
    }
  }

  /** The timer comes back to where it started after four steps and shows every
      slide on the way. */
  lemma AdvanceCycles(index: nat, target: nat)
    requires index < SlideCount && target < SlideCount
    ensures Advance(index, SlideCount) == index
    ensures Advance(index, (target + SlideCount - index) % SlideCount) == target
  {
    AdvanceIsModular(index, SlideCount);
    AdvanceIsModular(index, (target + SlideCount - index) % SlideCount);
  }

  // ---------------------------------------------------------------- active nav link

  const DefaultPage := "index.html"

  /** `pathname.split('/').pop() || 'index.html'`: the last `/`-segment of the
      path, or `index.html` when that segment is empty. The page never contains
      a `/`; it is `index.html` for an empty path or one ending in `/`, and
      otherwise the part of the path after its last `/`. */
  function CurrentPage(pathname: string): (page: string)
    ensures page != "" && '/' !in page
    ensures pathname == "" || pathname[|pathname| - 1] == '/' ==> page == DefaultPage
    ensures pathname != "" && pathname[|pathname| - 1] != '/' ==>
      && |page| <= |pathname| && pathname[|pathname| - |page|..] == page
      && (|page| < |pathname| ==> pathname[|pathname| - |page| - 1] == '/')
  {
    var parts := Split(pathname, '/');
    var last := parts[|parts| - 1];
    JoinEndsWithLast(parts, '/');
    if last == "" then DefaultPage else last
  }

  /** The positions of the navigation links `setActiveNavLink` marks active: those
      whose `href` equals the current page. A link whose `href` is empty or holds
      a `/` is never marked; on a path ending in `/` exactly the `index.html`
      links are. */
  function ActiveLinks(hrefs: seq<string>, pathname: string): (active: set<nat>)
    ensures forall i :: 0 <= i < |hrefs| ==> (i in active <==> hrefs[i] == CurrentPage(pathname))
    ensures forall i :: i in active ==> i < |hrefs| && hrefs[i] != "" && '/' !in hrefs[i]
    ensures pathname == "" || pathname[|pathname| - 1] == '/' ==>
      forall i :: 0 <= i < |hrefs| ==> (i in active <==> hrefs[i] == DefaultPage)
  {
    var page := CurrentPage(pathname);
    set i: nat | i < |hrefs| && hrefs[i] == page
  }
}
