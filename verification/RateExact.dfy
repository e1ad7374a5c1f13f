/** When a request is granted: exactly if no stretch of requests that ends with it would be granted too much. */
module RateExact {
  import opened Options
  import opened OrderedDicts
  import opened RateLimits

  /** What each request of a sequence is answered with. */
  function Answers(b: Bucket, times: seq<real>): (r: seq<bool>)
    ensures |r| == |times|
    decreases |times|
  {
    if times == [] then []
    else
      var (c, granted) := Acquired(b, times[0]);
      [granted] + Answers(c, times[1..])
  }

  /** Grants among the answers from `i` on, up to but without `j`. */
  function GrantedIn(answers: seq<bool>, i: nat, j: nat): nat
    requires i <= j <= |answers|
    decreases j - i
  {
    if i == j then 0 else GrantedIn(answers, i, j - 1) + if answers[j - 1] then 1 else 0
  }

  /** With one more grant at `j`, the stretch from `i` to `j` stays within the capacity and what its duration
      refills. */
  predicate FitsFrom(capacity: int, rate: real, times: seq<real>, answers: seq<bool>, i: nat, j: nat)
    requires i <= j < |times| == |answers|
  {
    (GrantedIn(answers, i, j) + 1) as real <= capacity as real + rate * (times[j] - times[i])
  }

  /** What the stretch from `i` to `j` leaves of the capacity and what its duration refilled. */
  function Left(capacity: int, rate: real, times: seq<real>, answers: seq<bool>, i: nat, j: nat): real
    requires i <= j < |times| == |answers|
  {
    capacity as real + Gain(times[j] - times[i], rate) - GrantedIn(answers, i, j) as real
  }

  // ---------------------------------------------------------------- one request after another

  function BucketAt(b: Bucket, times: seq<real>, j: nat): Bucket
    requires j <= |times|
    decreases j
  {
    if j == 0 then b else Acquired(BucketAt(b, times, j - 1), times[j - 1]).0
  }

  lemma {:induction false} BucketAtRest(b: Bucket, times: seq<real>, j: nat)
    requires 0 < j <= |times|
    ensures BucketAt(b, times, j) == BucketAt(Acquired(b, times[0]).0, times[1..], j - 1)
    decreases j
  {
    if j > 1 {
      BucketAtRest(b, times, j - 1);
      assert times[1..][j - 2] == times[j - 1];
    }
  }

  lemma {:induction false} AnswersAt(b: Bucket, times: seq<real>, j: nat)
    requires j < |times|
    ensures Answers(b, times)[j] == Acquired(BucketAt(b, times, j), times[j]).1
    decreases j
  {
    if j > 0 {
      AnswersAt(Acquired(b, times[0]).0, times[1..], j - 1);
      BucketAtRest(b, times, j);
    }
  }

  lemma {:induction false} BucketAtFacts(b: Bucket, times: seq<real>, j: nat)
    requires j <= |times|
    ensures var c := BucketAt(b, times, j);
            c.capacity == b.capacity && c.rate == b.rate && (j > 0 ==> c.lastRefill == times[j - 1])
    decreases j
  {
    if j > 0 {
      BucketAtFacts(b, times, j - 1);
    }
  }

  lemma {:induction false} MonotoneAt(times: seq<real>, from: real, j: nat)
    requires Monotone(times, from) && j < |times|
    ensures from <= times[j] && (j > 0 ==> times[j - 1] <= times[j])
    decreases |times|
  {
    if j > 0 {
      MonotoneAt(times[1..], times[0], j - 1);
      assert times[1..][j - 1] == times[j];
      assert j > 1 ==> times[1..][j - 2] == times[j - 1];
    }
  }

  // ---------------------------------------------------------------- tokens and stretches

  lemma LeftAfterOne(b: Bucket, times: seq<real>, answers: seq<bool>, i: nat, j: nat)
    requires i < j < |times| == |answers|
    ensures Left(b.capacity, b.rate, times, answers, i, j)
            == Left(b.capacity, b.rate, times, answers, i, j - 1) - (if answers[j - 1] then 1.0 else 0.0)
               + Gain(times[j] - times[j - 1], b.rate)
  {
    var (x, y) := (times[j] - times[j - 1], times[j - 1] - times[i]);
    assert Gain(x + y, b.rate) == Gain(x, b.rate) + Gain(y, b.rate);
    assert x + y == times[j] - times[i];
    assert GrantedIn(answers, i, j) as real
        == GrantedIn(answers, i, j - 1) as real + (if answers[j - 1] then 1.0 else 0.0);
  }

  lemma LeftOfNothing(b: Bucket, times: seq<real>, answers: seq<bool>, j: nat)
    requires j < |times| == |answers|
    ensures Left(b.capacity, b.rate, times, answers, j, j) == b.capacity as real
  {
  }

  lemma RefilledAfter(c: Bucket, now: real, later: real)
    ensures Refilled(Acquired(c, now).0, later)
            == Min(c.capacity as real,
                   Refilled(c, now) - (if Acquired(c, now).1 then 1.0 else 0.0) + Gain(later - now, c.rate))
  {
    hide Min, Gain;
  }

  lemma TokensAfterOne(b: Bucket, times: seq<real>, j: nat)
    requires 0 < j < |times|
    ensures var before := Refilled(BucketAt(b, times, j - 1), times[j - 1]);
            Refilled(BucketAt(b, times, j), times[j])
            == Min(b.capacity as real,
                   before - (if Answers(b, times)[j - 1] then 1.0 else 0.0) + Gain(times[j] - times[j - 1], b.rate))
  {
    hide Refilled, Answers, Min, Gain;
    AnswersAt(b, times, j - 1);
    assert BucketAt(b, times, j) == Acquired(BucketAt(b, times, j - 1), times[j - 1]).0;
    hide Acquired, BucketAt;
    BucketAtFacts(b, times, j - 1);
    RefilledAfter(BucketAt(b, times, j - 1), times[j - 1], times[j]);
  }

  lemma FullStaysFull(b: Bucket, times: seq<real>)
    requires b.rate >= 0.0 && b.tokens == b.capacity as real && Monotone(times, b.lastRefill) && times != []
    ensures Refilled(BucketAt(b, times, 0), times[0]) == b.capacity as real
  {
    MonotoneAt(times, b.lastRefill, 0);
    assert (times[0] - b.lastRefill) * b.rate >= 0.0;
  }

  /** A request finds no more tokens than any stretch that ends with it leaves. */
  lemma {:induction false} NoMoreThanLeft(b: Bucket, times: seq<real>, i: nat, j: nat)
    requires b.rate >= 0.0 && b.tokens == b.capacity as real && Monotone(times, b.lastRefill) && i <= j < |times|
    ensures Refilled(BucketAt(b, times, j), times[j]) <= Left(b.capacity, b.rate, times, Answers(b, times), i, j)
    decreases j
  {
    hide Answers, BucketAt, Gain;
    LeftOfNothing(b, times, Answers(b, times), j);
    BucketAtFacts(b, times, j);
    if i < j {
      NoMoreThanLeft(b, times, i, j - 1);
      hide Refilled, Left;
      TokensAfterOne(b, times, j);
      LeftAfterOne(b, times, Answers(b, times), i, j);
    }
  }

  /** And just as many as some stretch leaves. */
  lemma {:induction false} AsManyAsSomeLeaves(b: Bucket, times: seq<real>, j: nat) returns (i: nat)
    requires b.rate >= 0.0 && b.tokens == b.capacity as real && Monotone(times, b.lastRefill) && j < |times|
    ensures i <= j
    ensures Refilled(BucketAt(b, times, j), times[j]) == Left(b.capacity, b.rate, times, Answers(b, times), i, j)
    decreases j
  {
    hide Refilled, Left, Answers, BucketAt, Gain;
    LeftOfNothing(b, times, Answers(b, times), j);
    i := j;
    if j == 0 {
      FullStaysFull(b, times);
    } else {
      TokensAfterOne(b, times, j);
      if Refilled(BucketAt(b, times, j), times[j]) != b.capacity as real {
        i := AsManyAsSomeLeaves(b, times, j - 1);
        LeftAfterOne(b, times, Answers(b, times), i, j);
      }
    }
  }

  /** From a full bucket on, over every sequence of requests in order of time: a request is granted if and only if,
      for each stretch of requests that ends with it, the grants in the stretch with this one stay within the capacity
      and what the stretch's duration refills. */
  lemma GrantedIff(b: Bucket, times: seq<real>, j: nat)
    requires b.rate >= 0.0 && b.tokens == b.capacity as real && Monotone(times, b.lastRefill) && j < |times|
    ensures Answers(b, times)[j]
            <==> forall i :: 0 <= i <= j ==> FitsFrom(b.capacity, b.rate, times, Answers(b, times), i, j)
  {
    hide Refilled, BucketAt, Left, GrantedIn;
    var answers := Answers(b, times);
    AnswersAt(b, times, j);
    forall i | 0 <= i <= j
      ensures FitsFrom(b.capacity, b.rate, times, answers, i, j)
              <==> Left(b.capacity, b.rate, times, answers, i, j) >= 1.0
    {
      FitsIff(b.capacity, b.rate, times, answers, i, j);
    }
    if Answers(b, times)[j] {
      forall i | 0 <= i <= j ensures Left(b.capacity, b.rate, times, answers, i, j) >= 1.0 {
        NoMoreThanLeft(b, times, i, j);
      }
    } else {
      var i := AsManyAsSomeLeaves(b, times, j);
      assert !FitsFrom(b.capacity, b.rate, times, answers, i, j);
    }
  }

  lemma FitsIff(capacity: int, rate: real, times: seq<real>, answers: seq<bool>, i: nat, j: nat)
    requires i <= j < |times| == |answers|
    ensures FitsFrom(capacity, rate, times, answers, i, j) <==> Left(capacity, rate, times, answers, i, j) >= 1.0
  {
    assert Gain(times[j] - times[i], rate) == rate * (times[j] - times[i]);
  }

  /** The answers are those of the limiter's own calls. */
  lemma {:induction false} AnswersAreGrants(b: Bucket, times: seq<real>)
    ensures GrantedIn(Answers(b, times), 0, |times|) == Grants(b, times)
    decreases |times|
  {
    if times != [] {
      AnswersAreGrants(Acquired(b, times[0]).0, times[1..]);
      GrantedInTail(Answers(b, times), |times|);
      assert Answers(b, times)[1..] == Answers(Acquired(b, times[0]).0, times[1..]);
    }
  }

  lemma {:induction false} GrantedInTail(answers: seq<bool>, j: nat)
    requires 0 < j <= |answers|
    ensures GrantedIn(answers, 0, j) == (if answers[0] then 1 else 0) + GrantedIn(answers[1..], 0, j - 1)
    decreases j
  {
    if j > 1 {
      GrantedInTail(answers, j - 1);
    }
  }
}
