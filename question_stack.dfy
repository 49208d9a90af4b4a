/**
 * The pod decision queue of the swipe page (public/scripts/questionStack.js):
 * the global `pods` array, how fetched pods are admitted into it, how a pan
 * gesture or a love/nope button turns its head into a decision, and the
 * 12-hour clock text shown on each card.
 */
module QuestionStack {
  import opened Wrappers
  import opened Text

  datatype Location = Location(lat: string, lng: string)

  /** A pod as the server sends it (the fields the page reads). */
  datatype Pod = Pod(name: string, image: string, location: Location, tags: seq<string>,
                     eventDescription: string, formattedDate: string, time: string)

  datatype Verdict = Love | Nope

  /**
   * What the page hands to `handleLoveSwipe` (Love) or `handleNopeSwipe` (Nope).
   * `pod` is `None` when `pods[0]` is undefined, that is, when the queue was empty.
   */
  datatype Decision = Decision(verdict: Verdict, pod: Option<Pod>)

  // ---------------------------------------------------------------------------
  // Admission: the tag filter and the distance filter
  // ---------------------------------------------------------------------------

  /** `s.filter(keep)`: the elements that pass, in their order, copies kept. */
  function Filter<T(!new)>(s: seq<T>, keep: T -> bool): (r: seq<T>)
    ensures |r| <= |s|
    ensures forall x :: x in r <==> x in s && keep(x)
  {
    if s == [] then [] else (if keep(s[0]) then [s[0]] else []) + Filter(s[1..], keep)
  }

  /** Filtering distributes over concatenation: the relative order of what passes is kept. */
  lemma {:induction false} FilterAppend<T(!new)>(a: seq<T>, b: seq<T>, keep: T -> bool)
    ensures Filter(a + b, keep) == Filter(a, keep) + Filter(b, keep)
  {
    if a != [] {
      var head := if keep(a[0]) then [a[0]] else [];
      assert (a + b)[0] == a[0];
      assert (a + b)[1..] == a[1..] + b;
      FilterAppend(a[1..], b, keep);
      calc {
        Filter(a + b, keep);
        head + Filter(a[1..] + b, keep);
        head + (Filter(a[1..], keep) + Filter(b, keep));
        (head + Filter(a[1..], keep)) + Filter(b, keep);
        Filter(a, keep) + Filter(b, keep);
      }
    } else {
      assert a + b == b;
    }
  }

  /** Nothing passes a filter that rejects every element. */
  lemma {:induction false} FilterRejectsAll<T(!new)>(s: seq<T>, keep: T -> bool)
    requires forall x :: x in s ==> !keep(x)
    ensures Filter(s, keep) == []
  {
    if s != [] {
      assert s[0] in s;
      forall x | x in s[1..] ensures !keep(x) {
        assert x in s;
      }
      FilterRejectsAll(s[1..], keep);
    }
  }

  /** Filtering never merges duplicates: a passing value keeps every one of its copies. */
  lemma {:induction false} FilterCount<T(!new)>(s: seq<T>, keep: T -> bool, x: T)
    ensures multiset(Filter(s, keep))[x] == if keep(x) then multiset(s)[x] else 0
  {
    if s != [] {
      FilterCount(s[1..], keep, x);
      assert s == [s[0]] + s[1..];
    }
  }

  /** `tags.some(tag => userTags.includes(tag))`. */
  function SharesTag(tags: seq<string>, userTags: seq<string>): (r: bool)
    ensures r <==> exists i :: 0 <= i < |tags| && tags[i] in userTags
  {
    if tags == [] then false
    else if tags[0] in userTags then true
    else
      var rest := SharesTag(tags[1..], userTags);
      assert rest ==> exists i :: 0 <= i < |tags| && tags[i] in userTags by {
        if rest {
          var j :| 0 <= j < |tags| - 1 && tags[1..][j] in userTags;
          assert tags[j + 1] in userTags;
        }
      }
      assert (exists i :: 0 <= i < |tags| && tags[i] in userTags) ==> rest by {
        if exists i :: 0 <= i < |tags| && tags[i] in userTags {
          var i :| 0 <= i < |tags| && tags[i] in userTags;
          assert i > 0 && tags[1..][i - 1] in userTags;
        }
      }
      rest
  }

  /** The pods the loading loop pushes onto `pods`, out of one fetched list. */
  function Admitted(fetched: seq<Pod>, userTags: seq<string>): seq<Pod>
  {
    Filter(fetched, (p: Pod) => SharesTag(p.tags, userTags))
  }

  /** A fetched pod is admitted iff one of its tags is one of the user's tags. */
  lemma AdmittedMembership(fetched: seq<Pod>, userTags: seq<string>, p: Pod)
    ensures p in Admitted(fetched, userTags) <==>
            p in fetched && exists t :: t in p.tags && t in userTags
  {
    if SharesTag(p.tags, userTags) {
      var i :| 0 <= i < |p.tags| && p.tags[i] in userTags;
      assert p.tags[i] in p.tags;
    }
  }

  /** Admission keeps the fetch order and does not deduplicate. */
  lemma AdmittedOrderAndCopies(a: seq<Pod>, b: seq<Pod>, userTags: seq<string>, p: Pod)
    ensures Admitted(a + b, userTags) == Admitted(a, userTags) + Admitted(b, userTags)
    ensures multiset(Admitted(a, userTags))[p] ==
            if SharesTag(p.tags, userTags) then multiset(a)[p] else 0
  {
    FilterAppend(a, b, (q: Pod) => SharesTag(q.tags, userTags));
    FilterCount(a, (q: Pod) => SharesTag(q.tags, userTags), p);
  }

  /** `distanceTo(userLocation) <= maxDist`; a comparison with `undefined` is false. */
  predicate WithinAsWritten(distance: real, maxDist: Option<real>)
  {
    maxDist.Some? && distance <= maxDist.value
  }

  /**
   * The distance step as written: its guard `navigator.geolocation && typeof
   * maxDist != undefined` compares the string that `typeof` yields with the
   * value `undefined`, which is always unequal, so only geolocation decides.
   */
  function RadiusFilterAsWritten(pods: seq<Pod>, hasGeolocation: bool, maxDist: Option<real>,
                                 distanceTo: Pod -> real): seq<Pod>
  {
    if hasGeolocation then Filter(pods, (p: Pod) => WithinAsWritten(distanceTo(p), maxDist))
    else pods
  }

  /** As written, a page without a maximum distance but with geolocation loses every pod. */
  lemma RadiusFilterAsWrittenDropsAll(pods: seq<Pod>, distanceTo: Pod -> real)
    ensures RadiusFilterAsWritten(pods, true, None, distanceTo) == []
  {
    FilterRejectsAll(pods, (p: Pod) => WithinAsWritten(distanceTo(p), None));
  }

  /** The distance step as intended: filter only when a maximum distance is set. */
  function RadiusFilter(pods: seq<Pod>, hasGeolocation: bool, maxDist: Option<real>,
                        distanceTo: Pod -> real): seq<Pod>
  {
    if hasGeolocation && maxDist.Some? then Filter(pods, (p: Pod) => distanceTo(p) <= maxDist.value)
    else pods
  }

  /**
   * Without geolocation or without a maximum distance the queue is untouched;
   * otherwise exactly the pods within the radius stay, in their order.
   */
  lemma RadiusFilterSpec(a: seq<Pod>, b: seq<Pod>, hasGeolocation: bool, maxDist: Option<real>,
                         distanceTo: Pod -> real, p: Pod)
    ensures !hasGeolocation || maxDist.None? ==> RadiusFilter(a, hasGeolocation, maxDist, distanceTo) == a
    ensures hasGeolocation && maxDist.Some? ==>
              (p in RadiusFilter(a, hasGeolocation, maxDist, distanceTo) <==>
               p in a && distanceTo(p) <= maxDist.value)
    ensures RadiusFilter(a + b, hasGeolocation, maxDist, distanceTo) ==
            RadiusFilter(a, hasGeolocation, maxDist, distanceTo) + RadiusFilter(b, hasGeolocation, maxDist, distanceTo)
  {
    if hasGeolocation && maxDist.Some? {
      FilterAppend(a, b, (q: Pod) => distanceTo(q) <= maxDist.value);
    }
  }

  // ---------------------------------------------------------------------------
  // Decisions
  // ---------------------------------------------------------------------------

  function Abs(x: real): real
  {
    if x < 0.0 then -x else x
  }

  /** The `keep` flag of the panend handler: too short or too slow a pan keeps the card. */
  predicate Keep(dx: real, vx: real)
  {
    Abs(dx) < 80.0 || Abs(vx) < 0.5
  }

  /** The decision a pan ending with displacement `dx` and velocity `vx` commits, if any. */
  function PanVerdict(dx: real, vx: real): (r: Option<Verdict>)
    ensures r.None? <==> Keep(dx, vx)
    ensures r.Some? <==> Abs(dx) >= 80.0 && Abs(vx) >= 0.5
    ensures r == Some(Love) <==> dx >= 80.0 && Abs(vx) >= 0.5
    ensures r == Some(Nope) <==> dx <= -80.0 && Abs(vx) >= 0.5
  {
    if !Keep(dx, vx) && dx > 0.0 then Some(Love)
    else if !Keep(dx, vx) && dx < 0.0 then Some(Nope)
    else None
  }

  /** `pods[0]`: undefined on an empty queue. */
  function Head(q: seq<Pod>): Option<Pod>
  {
    if q == [] then None else Some(q[0])
  }

  /** `pods.shift()`: drops the head, and does nothing on an empty queue. */
  function Shift(q: seq<Pod>): (r: seq<Pod>)
    ensures q == [] ==> r == []
    ensures q != [] ==> [q[0]] + r == q && |r| == |q| - 1
  {
    if q == [] then [] else q[1..]
  }

  /** The events that change the queue: the end of a pan, or a click on love or nope. */
  datatype Gesture = Pan(dx: real, vx: real) | Press(love: bool)

  /** One event: the queue after it, and the decision it sends, if any. */
  function Step(q: seq<Pod>, g: Gesture): (seq<Pod>, Option<Decision>)
  {
    match g
    case Pan(dx, vx) =>
      (match PanVerdict(dx, vx)
       case None => (q, None)
       case Some(v) => (Shift(q), Some(Decision(v, Head(q)))))
    case Press(love) =>
      if q == [] then (q, None)
      else (q[1..], Some(Decision(if love then Love else Nope, Some(q[0]))))
  }

  /** The decisions one event sends: none or one. */
  function Emitted(d: Option<Decision>): seq<Decision>
  {
    if d.Some? then [d.value] else []
  }

  /** A sequence of events: the final queue and the decisions sent, in order. */
  function Run(q: seq<Pod>, gs: seq<Gesture>): (seq<Pod>, seq<Decision>)
  {
    if gs == [] then (q, [])
    else
      var (q1, d) := Step(q, gs[0]);
      var (q2, ds) := Run(q1, gs[1..]);
      (q2, Emitted(d) + ds)
  }

  /** The pods that the decisions carry, in order (an undefined pod carries none). */
  function DecidedPods(ds: seq<Decision>): seq<Pod>
  {
    if ds == [] then []
    else (if ds[0].pod.Some? then [ds[0].pod.value] else []) + DecidedPods(ds[1..])
  }

  lemma {:induction false} DecidedPodsAppend(a: seq<Decision>, b: seq<Decision>)
    ensures DecidedPods(a + b) == DecidedPods(a) + DecidedPods(b)
  {
    if a == [] {
      assert a + b == b;
    } else {
      assert (a + b)[0] == a[0];
      assert (a + b)[1..] == a[1..] + b;
      DecidedPodsAppend(a[1..], b);
    }
  }

  /** One event takes from the queue exactly the pod its decision carries, from the front. */
  lemma StepConsumesFront(q: seq<Pod>, g: Gesture)
    ensures q == DecidedPods(Emitted(Step(q, g).1)) + Step(q, g).0
  {
    var (q1, d) := Step(q, g);
    if d.Some? && q != [] {
      assert d.value.pod == Some(q[0]);
      assert q == [q[0]] + q[1..];
    }
  }

  /**
   * The queue only shrinks through decisions: after any events, the original
   * queue is exactly the decided pods, in decision order, followed by what is
   * left. So every decision takes the head, and nothing is ever re-inserted.
   */
  lemma {:induction false} RunConsumesFront(q: seq<Pod>, gs: seq<Gesture>)
    ensures q == DecidedPods(Run(q, gs).1) + Run(q, gs).0
    ensures |Run(q, gs).0| <= |q|
    ensures Run(q, gs).0 == q[|q| - |Run(q, gs).0|..]
  {
    if gs != [] {
      var (q1, d) := Step(q, gs[0]);
      var (q2, ds) := Run(q1, gs[1..]);
      StepConsumesFront(q, gs[0]);
      RunConsumesFront(q1, gs[1..]);
      DecidedPodsAppend(Emitted(d), ds);
      assert q == DecidedPods(Emitted(d) + ds) + q2;
    }
  }

  // ---------------------------------------------------------------------------
  // The 12-hour clock text of formatDateTime
  // ---------------------------------------------------------------------------

  datatype Meridiem = Am | Pm

  function MeridiemText(m: Meridiem): string
  {
    match m
    case Am => "am"
    case Pm => "pm"
  }

  datatype ClockHour = ClockHour(hour: int, meridiem: Meridiem)

  /** The hour conversion: from 12 on it is pm, and hours past 12 lose 12. */
  function To12Hour(hours: int): ClockHour
  {
    if hours >= 12 then ClockHour(if hours > 12 then hours - 12 else hours, Pm)
    else ClockHour(hours, Am)
  }

  /** The reading of a 12-hour clock as a 24-hour one: the inverse of To12Hour on the hours 0..23. */
  function To24Hour(c: ClockHour): int
  {
    if c.meridiem == Pm && c.hour != 12 then c.hour + 12 else c.hour
  }

  /**
   * Every hour below 24 is told apart: To24Hour undoes To12Hour. On the day's
   * hours the clock hour lies in 0..12, and midnight stays 0 (not 12).
   */
  lemma To12HourRoundTrip(hours: int)
    requires hours < 24
    ensures To24Hour(To12Hour(hours)) == hours
    ensures 0 <= hours ==> 0 <= To12Hour(hours).hour <= 12
    ensures To12Hour(hours).meridiem == Pm <==> hours >= 12
    ensures To12Hour(hours).hour == 0 <==> hours == 0
  {
  }

  /** `${x}` for a Number that is an integer or NaN. */
  function NumberText(x: Option<int>): string
  {
    match x
    case None => "NaN"
    case Some(n) => IntToString(n)
  }

  /**
   * The time half of formatDateTime: an empty time gives an empty text;
   * otherwise the hour field (the text before the first colon) goes through
   * parseInt and the 12-hour conversion, and the minutes field (between the
   * first and second colon, `undefined` when there is no colon) is copied.
   */
  function FormatTime(timeString: string): (r: string)
    ensures r == "" <==> timeString == ""
  {
    if timeString == "" then ""
    else
      var parts := Split(timeString, ':');
      var minutes := if |parts| >= 2 then parts[1] else "undefined";
      match ParseInt(parts[0])
      case None => "NaN:" + minutes + "am"
      case Some(h) =>
        var c := To12Hour(h);
        IntToString(c.hour) + ":" + minutes + MeridiemText(c.meridiem)
  }

  /** formatDateTime: the date half (month name and day of month) is passed in, as `Date` parsing is not modelled. */
  function FormatDateTime(month: string, day: Option<int>, timeString: string): (r: string)
    ensures |r| >= |month| && r[..|month|] == month
    ensures |r| >= |FormatTime(timeString)| + 3 &&
            r[|r| - |FormatTime(timeString)| - 3..] == " @ " + FormatTime(timeString)
  {
    var head := month + " " + NumberText(day);
    var tail := " @ " + FormatTime(timeString);
    assert (head + tail)[..|month|] == month;
    assert (head + tail)[|head|..] == tail;
    head + tail
  }

  /** The field before a colon-free prefix and a following `:` or end is that prefix. */
  lemma FirstField(a: string, rest: string, c: char)
    requires c !in a
    requires rest == [] || rest[0] == c
    ensures Split(a + rest, c)[0] == a
  {
    if rest == [] {
      assert a + rest == a;
      SplitWithoutSeparator(a, c);
    } else {
      assert a + rest == a + [c] + rest[1..];
      SplitAtFirst(a, rest[1..], c);
    }
  }

  /**
   * A time `hh:mm` (optionally followed by `:ss`) whose hour field is decimal
   * digits: 12 and later read pm, hours past 12 lose 12, earlier hours read am
   * unchanged (so 0 stays 0), and the minutes are copied verbatim.
   */
  lemma FormatTimeOfClock(hh: string, mm: string, rest: string)
    requires |hh| >= 1 && AllDigitsIn(hh, 10)
    requires ':' !in mm
    requires rest == [] || rest[0] == ':'
    ensures var h := DigitsValue(hh, 10);
            FormatTime(hh + ":" + mm + rest) ==
            IntToString(if h > 12 then h - 12 else h) + ":" + mm + (if h >= 12 then "pm" else "am")
  {
    var s := hh + ":" + mm + rest;
    assert ':' !in hh;
    assert s == hh + [':'] + (mm + rest);
    SplitAtFirst(hh, mm + rest, ':');
    FirstField(mm, rest, ':');
    ParseDecimal(hh);
  }

  // ---------------------------------------------------------------------------
  // The queue
  // ---------------------------------------------------------------------------

  /** The page's `pods` array. */
  class SwipeQueue {
    var pods: seq<Pod>

    constructor ()
      ensures pods == []
    {
      pods := [];
    }

    /** The loop of the loading callback: push each fetched pod that shares a tag with the user. */
    method LoadPods(fetched: seq<Pod>, userTags: seq<string>)
      modifies this
      ensures pods == old(pods) + Admitted(fetched, userTags)
    {
      for i := 0 to |fetched|
        invariant pods == old(pods) + Admitted(fetched[..i], userTags)
      {
        var pod := fetched[i];
        AdmittedOrderAndCopies(fetched[..i], [pod], userTags, pod);
        assert fetched[..i + 1] == fetched[..i] + [pod];
        if SharesTag(pod.tags, userTags) {
          pods := pods + [pod];
        }
      }
      assert fetched[..|fetched|] == fetched;
    }

    /** The geolocation callback: keep the pods within the user's maximum distance, if one is set. */
    method ApplyRadius(hasGeolocation: bool, maxDist: Option<real>, distanceTo: Pod -> real)
      modifies this
      ensures pods == RadiusFilter(old(pods), hasGeolocation, maxDist, distanceTo)
    {
      if hasGeolocation && maxDist.Some? {
        pods := Filter(pods, (p: Pod) => distanceTo(p) <= maxDist.value);
      }
    }

    /**
     * The panend handler: a kept pan changes nothing and decides nothing; a
     * committed pan to the right sends the head to love, to the left to nope,
     * and shifts the queue once.
     */
    method PanEnd(dx: real, vx: real) returns (decision: Option<Decision>)
      modifies this
      ensures Keep(dx, vx) ==> decision == None && pods == old(pods)
      ensures !Keep(dx, vx) && dx > 0.0 ==>
                decision == Some(Decision(Love, Head(old(pods)))) && pods == Shift(old(pods))
      ensures !Keep(dx, vx) && dx < 0.0 ==>
                decision == Some(Decision(Nope, Head(old(pods)))) && pods == Shift(old(pods))
      ensures (pods, decision) == Step(old(pods), Pan(dx, vx))
    {
      var keep := Abs(dx) < 80.0 || Abs(vx) < 0.5;
      decision := None;
      if !keep && dx > 0.0 {
        decision := Some(Decision(Love, Head(pods)));
        pods := Shift(pods);
      } else if !keep && dx < 0.0 {
        decision := Some(Decision(Nope, Head(pods)));
        pods := Shift(pods);
      }
    }

    /**
     * The listener of the love (`love` true) and nope buttons: with no card
     * left it does nothing; otherwise it always commits, whatever the
     * thresholds, the head goes to the chosen sink and the queue shifts once.
     */
    method PressButton(love: bool) returns (decision: Option<Decision>)
      modifies this
      ensures old(pods) == [] ==> decision == None && pods == old(pods)
      ensures old(pods) != [] ==>
                decision == Some(Decision(if love then Love else Nope, Some(old(pods)[0]))) &&
                pods == old(pods)[1..]
      ensures (pods, decision) == Step(old(pods), Press(love))
    {
      if pods == [] {
        return None;
      }
      var head := pods[0];
      if love {
        decision := Some(Decision(Love, Some(head)));
        pods := pods[1..];
      } else {
        decision := Some(Decision(Nope, Some(head)));
        pods := pods[1..];
      }
    }
  }

  /** Worked examples of the commit rule and of the tag filter. */
  lemma DecisionExamples()
    ensures Keep(50.0, 1.0) && Keep(100.0, 0.3)
    ensures PanVerdict(100.0, 0.6) == Some(Love) && PanVerdict(-100.0, 0.6) == Some(Nope)
    ensures SharesTag(["music", "art"], ["art", "sports"])
    ensures !SharesTag(["music", "art"], ["sports", "food"])
  {
    assert ["music", "art"][1] == "art";
  }
}
