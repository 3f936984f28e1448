/** The home page's own state: the testimonial carousel and the newsletter
    form. The page keeps three pieces of React state; `PageState` is their
    value, `Step` says what each user event does to it, and the class
    `HomePage` holds the same state in fields and is proved against `Step`. */
module Home {

  /** Number of testimonials the carousel rotates through. */
  const TestimonialCount: int := 4

  /** JavaScript's `%` for a positive divisor: the remainder of division
      truncated toward zero, so it takes the sign of the dividend (Dafny's own
      `%` never goes negative). */
  function JsRem(a: int, n: int): (r: int)
    requires n > 0
    ensures (a - r) % n == 0
    ensures a >= 0 ==> 0 <= r < n
    ensures a < 0 ==> -n < r <= 0
  {
    if a >= 0 then
      ModUnique(a - a % n, n, a / n, 0);
      a % n
    else
      var m := (-a) % n;
      ModUnique(a + m, n, -((-a) / n), 0);
      -m
  }

  /** The "next" arrow: `(c + 1) % n`. */
  function Next(c: int, n: int): (r: int)
    requires n > 0
    ensures 0 <= c < n ==> r == if c == n - 1 then 0 else c + 1
  {
    JsRem(c + 1, n)
  }

  /** The "previous" arrow: `(c - 1 + n) % n`. */
  function Prev(c: int, n: int): (r: int)
    requires n > 0
    ensures 0 <= c < n ==> r == if c == 0 then n - 1 else c - 1
  {
    JsRem(c - 1 + n, n)
  }

  /** Each arrow keeps the index inside the list, and each undoes the other. */
  lemma PrevUndoesNext(c: int, n: int)
    requires 0 <= c < n
    ensures 0 <= Next(c, n) < n && 0 <= Prev(c, n) < n
    ensures Prev(Next(c, n), n) == c && Next(Prev(c, n), n) == c
  {
  }

  /** The index after `k` presses of the "next" arrow. */
  function NextTimes(c: int, n: int, k: nat): int
    requires n > 0
  {
    if k == 0 then c else Next(NextTimes(c, n, k - 1), n)
  }

  /** Pressing "next" k times moves the index k places round the circle. */
  lemma {:induction false} NextTimesRotates(c: int, n: int, k: nat)
    requires 0 <= c < n
    ensures NextTimes(c, n, k) == (c + k) % n
  {
    if k > 0 {
      NextTimesRotates(c, n, k - 1);
      var p := (c + k - 1) % n;
      assert NextTimes(c, n, k) == Next(p, n);
      ModSucc(c + k - 1, n);
    }
  }

  /** One more step round the circle: the remainder goes up by one, wrapping
      from n - 1 to 0. */
  lemma ModSucc(x: int, n: int)
    requires n > 0
    ensures (x + 1) % n == if x % n == n - 1 then 0 else x % n + 1
  {
    var q, p := x / n, x % n;
    assert x == n * q + p;
    if p == n - 1 {
      assert x + 1 == n * (q + 1) + 0;
      ModUnique(x + 1, n, q + 1, 0);
    } else {
      ModUnique(x + 1, n, q, p + 1);
    }
  }

  /** The remainder is determined by any quotient-remainder split. */
  lemma ModUnique(x: int, n: int, q: int, r: int)
    requires n > 0 && x == n * q + r && 0 <= r < n
    ensures x % n == r
  {
    var d := x / n - q;
    assert n * d == r - x % n;
  }

  /** n presses of "next" bring the carousel back to where it started. */
  lemma NextFullCycle(c: int, n: int)
    requires 0 <= c < n
    ensures NextTimes(c, n, n) == c
  {
    NextTimesRotates(c, n, n);
    ModUnique(c + n, n, 1, c);
  }

  /** Dot `i` is drawn highlighted when testimonial `c` is shown. */
  predicate DotHighlighted(i: int, c: int) {
    i == c
  }

  /** The dots that are drawn highlighted when testimonial `c` is shown. */
  function ActiveDots(c: int, n: int): set<int> {
    set i | 0 <= i < n && DotHighlighted(i, c)
  }

  /** Exactly one dot is highlighted: the one of the testimonial shown. */
  lemma OneActiveDot(c: int, n: int)
    requires 0 <= c < n
    ensures ActiveDots(c, n) == {c}
  {
  }

  /** The page's React state. */
  datatype PageState = PageState(testimonial: int, newsletterSubmitted: bool, email: string)

  /** What a visitor can do on the page. */
  datatype PageEvent =
    | NextClicked
    | PrevClicked
    | DotClicked(i: int)
    | EmailTyped(value: string)
    | NewsletterSent

  const Initial := PageState(0, false, "")

  /** The dots are drawn only for the testimonials that exist. */
  predicate Rendered(e: PageEvent) {
    e.DotClicked? ==> 0 <= e.i < TestimonialCount
  }

  /** What one event does to the page state. The index stays valid whenever
      the event could be drawn, the subscription is never withdrawn, and it is
      recorded only by a send with a non-empty email. */
  function Step(s: PageState, e: PageEvent): (r: PageState)
    ensures IndexInRange(s) && Rendered(e) ==> IndexInRange(r)
    ensures s.newsletterSubmitted ==> r.newsletterSubmitted
    ensures r.newsletterSubmitted ==> s.newsletterSubmitted || (e == NewsletterSent && s.email != "")
    ensures !e.EmailTyped? ==> r.email == s.email
  {
    match e
    case NextClicked => s.(testimonial := Next(s.testimonial, TestimonialCount))
    case PrevClicked => s.(testimonial := Prev(s.testimonial, TestimonialCount))
    case DotClicked(i) => s.(testimonial := i)
    case EmailTyped(v) => s.(email := v)
    case NewsletterSent => if s.email != "" then s.(newsletterSubmitted := true) else s
  }

  function Run(s: PageState, evs: seq<PageEvent>): PageState
    decreases |evs|
  {
    if evs == [] then s else Run(Step(s, evs[0]), evs[1..])
  }

  predicate IndexInRange(s: PageState) {
    0 <= s.testimonial < TestimonialCount
  }

  /** Whatever a visitor clicks, the carousel index stays a valid index. */
  lemma {:induction false} RunKeepsIndexInRange(s: PageState, evs: seq<PageEvent>)
    requires IndexInRange(s)
    requires forall j :: 0 <= j < |evs| ==> Rendered(evs[j])
    ensures IndexInRange(Run(s, evs))
    decreases |evs|
  {
    if evs != [] {
      assert Rendered(evs[0]);
      RunKeepsIndexInRange(Step(s, evs[0]), evs[1..]);
    }
  }

  /** Sending the form records the subscription exactly when an email was
      typed; the carousel and the email field are untouched. */
  lemma SendGuard(s: PageState)
    ensures Step(s, NewsletterSent).newsletterSubmitted <==> s.newsletterSubmitted || s.email != ""
    ensures Step(s, NewsletterSent).testimonial == s.testimonial
    ensures Step(s, NewsletterSent).email == s.email
  {
  }

  /** Once subscribed, no sequence of events clears the flag. */
  lemma {:induction false} SubmittedNeverResets(s: PageState, evs: seq<PageEvent>)
    requires s.newsletterSubmitted
    ensures Run(s, evs).newsletterSubmitted
    decreases |evs|
  {
    if evs != [] {
      SubmittedNeverResets(Step(s, evs[0]), evs[1..]);
    }
  }

  /** While the email field stays empty, no number of sends subscribes. */
  lemma {:induction false} NoEmailNoSubscription(s: PageState, evs: seq<PageEvent>)
    requires !s.newsletterSubmitted && s.email == ""
    requires forall j :: 0 <= j < |evs| ==> evs[j].EmailTyped? ==> evs[j].value == ""
    ensures !Run(s, evs).newsletterSubmitted
    decreases |evs|
  {
    if evs != [] {
      assert evs[0].EmailTyped? ==> evs[0].value == "";
      NoEmailNoSubscription(Step(s, evs[0]), evs[1..]);
    }
  }

  /** The page component: its three state variables as fields. */
  class HomePage {
    var currentTestimonial: int
    var newsletterSubmitted: bool
    var email: string

    function Snapshot(): PageState
      reads this
    {
      PageState(currentTestimonial, newsletterSubmitted, email)
    }

    ghost predicate Valid()
      reads this
    {
      IndexInRange(Snapshot())
    }

    constructor ()
      ensures Valid() && Snapshot() == Initial
    {
      currentTestimonial := 0;
      newsletterSubmitted := false;
      email := "";
    }

    method NextTestimonial()
      requires Valid()
      modifies this
      ensures Valid() && Snapshot() == Step(old(Snapshot()), NextClicked)
      ensures currentTestimonial == if old(currentTestimonial) == TestimonialCount - 1 then 0 else old(currentTestimonial) + 1
    {
      currentTestimonial := Next(currentTestimonial, TestimonialCount);
    }

    method PrevTestimonial()
      requires Valid()
      modifies this
      ensures Valid() && Snapshot() == Step(old(Snapshot()), PrevClicked)
      ensures currentTestimonial == if old(currentTestimonial) == 0 then TestimonialCount - 1 else old(currentTestimonial) - 1
    {
      currentTestimonial := Prev(currentTestimonial, TestimonialCount);
    }

    method GoToTestimonial(i: int)
      requires Valid() && 0 <= i < TestimonialCount
      modifies this
      ensures Valid() && Snapshot() == Step(old(Snapshot()), DotClicked(i))
      ensures currentTestimonial == i
    {
      currentTestimonial := i;
    }

    method SetEmail(value: string)
      requires Valid()
      modifies this
      ensures Valid() && Snapshot() == Step(old(Snapshot()), EmailTyped(value))
    {
      email := value;
    }

    method HandleNewsletter()
      requires Valid()
      modifies this
      ensures Valid() && Snapshot() == Step(old(Snapshot()), NewsletterSent)
      ensures newsletterSubmitted <==> old(newsletterSubmitted) || email != ""
    {
      if email != "" {
        newsletterSubmitted := true;
      }
    }
  }
}
