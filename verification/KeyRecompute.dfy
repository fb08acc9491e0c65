// Startup recompute of the legacy identity key
// (crates/livrarr-db/src/pool.rs:383-493). Every UPDATE commits on its own, so
// the UNIQUE (user_id, normalized_title, normalized_author) index has to hold
// after each of them.
module KeyRecompute {

  type Key = (string, string)
  // `identity_matching::identity_key`, whose text rules are not modelled here.
  type Recipe = (string, string) -> Key

  const GENERATION: int := 1

  datatype Work = Work(user: int, title: string, author: string, key: Key)

  function Target(recipe: Recipe, w: Work): Key {
    recipe(w.title, w.author)
  }

  ghost predicate Unique(works: seq<Work>) {
    forall i, j :: 0 <= i < j < |works| && works[i].user == works[j].user ==> works[i].key != works[j].key
  }

  // Another work of the same user already has the key work i wants.
  predicate Taken(recipe: Recipe, works: seq<Work>, i: nat)
    requires i < |works|
  {
    exists j :: 0 <= j < |works| && j != i && works[j].user == works[i].user
                && works[j].key == Target(recipe, works[i])
  }

  function Rewrite(recipe: Recipe, works: seq<Work>, i: nat): (r: seq<Work>)
    requires i < |works|
    ensures |r| == |works|
  {
    if Taken(recipe, works, i) then works
    else works[i := works[i].(key := Target(recipe, works[i]))]
  }

  // The table after the first n statements of a pass.
  function PassTo(recipe: Recipe, works: seq<Work>, n: nat): (r: seq<Work>)
    requires n <= |works|
    ensures |r| == |works|
  {
    if n == 0 then works else Rewrite(recipe, PassTo(recipe, works, n - 1), n - 1)
  }

  function Pass(recipe: Recipe, works: seq<Work>): (r: seq<Work>)
    ensures |r| == |works|
  {
    PassTo(recipe, works, |works|)
  }

  predicate AtTarget(recipe: Recipe, w: Work) {
    w.key == Target(recipe, w)
  }

  ghost predicate AllAtTarget(recipe: Recipe, works: seq<Work>) {
    forall i :: 0 <= i < |works| ==> AtTarget(recipe, works[i])
  }

  function Correct(recipe: Recipe, works: seq<Work>): (n: nat)
    ensures n <= |works|
  {
    if works == [] then 0
    else Correct(recipe, works[..|works| - 1]) + (if AtTarget(recipe, works[|works| - 1]) then 1 else 0)
  }

  // Nothing but keys moves, and a key only ever moves to its recomputed value.
  ghost predicate Moved(recipe: Recipe, before: seq<Work>, after: seq<Work>) {
    && |after| == |before|
    && forall i :: 0 <= i < |before| ==>
         after[i] == before[i] || after[i] == before[i].(key := Target(recipe, before[i]))
  }

  class Library {
    var works: seq<Work>
    var marker: int
    const identityKey: Recipe

    constructor (works: seq<Work>, marker: int, identityKey: Recipe)
      ensures this.works == works && this.marker == marker && this.identityKey == identityKey
    {
      this.works, this.marker, this.identityKey := works, marker, identityKey;
    }

    method Recompute() returns (recomputed: nat, skipped: nat)
      requires Unique(works)
      modifies this
      ensures Unique(works)
      ensures old(marker) >= GENERATION ==> works == old(works) && marker == old(marker)
      ensures old(marker) < GENERATION ==>
                && works == Pass(identityKey, old(works))
                && recomputed + skipped == |works|
                && marker == (if skipped == 0 then GENERATION else old(marker))
                && (skipped == 0 <==> AllAtTarget(identityKey, works))
    {
      recomputed, skipped := 0, 0;
      if marker >= GENERATION {
        return;
      }
      var rows := works;
      ghost var off := -1;
      for i := 0 to |rows|
        invariant works == PassTo(identityKey, old(works), i) && Unique(works)
        invariant recomputed + skipped == i && marker == old(marker)
        invariant skipped == 0 ==> forall k :: 0 <= k < i ==> AtTarget(identityKey, works[k])
        invariant skipped > 0 ==> 0 <= off < i && !AtTarget(identityKey, works[off])
      {
        PassMoves(identityKey, rows, i);
        RewriteKeepsUnique(identityKey, works, i);
        var target := identityKey(rows[i].title, rows[i].author);
        assert target == Target(identityKey, works[i]);
        if Taken(identityKey, works, i) {
          skipped := skipped + 1;
          off := i;
        } else {
          works := works[i := works[i].(key := target)];
          recomputed := recomputed + 1;
        }
      }
      if skipped == 0 {
        marker := GENERATION;
      }
    }
  }

  lemma RewriteKeepsUnique(recipe: Recipe, works: seq<Work>, i: nat)
    requires Unique(works) && i < |works|
    ensures Unique(Rewrite(recipe, works, i))
    ensures Taken(recipe, works, i) ==> !AtTarget(recipe, works[i])
  {}

  lemma {:induction false} PassMoves(recipe: Recipe, works: seq<Work>, n: nat)
    requires Unique(works) && n <= |works|
    ensures Unique(PassTo(recipe, works, n)) && Moved(recipe, works, PassTo(recipe, works, n))
    ensures forall i :: n <= i < |works| ==> PassTo(recipe, works, n)[i] == works[i]
    ensures forall i :: 0 <= i < |works| && AtTarget(recipe, works[i]) ==> PassTo(recipe, works, n)[i] == works[i]
  {
    if n > 0 {
      PassMoves(recipe, works, n - 1);
      RewriteKeepsUnique(recipe, PassTo(recipe, works, n - 1), n - 1);
    }
  }

  lemma {:induction false} CorrectGrows(recipe: Recipe, before: seq<Work>, after: seq<Work>)
    requires Moved(recipe, before, after)
    ensures Correct(recipe, before) <= Correct(recipe, after)
    ensures Correct(recipe, before) == Correct(recipe, after) ==> before == after
  {
    if before != [] {
      var front, front' := before[..|before| - 1], after[..|after| - 1];
      CorrectGrows(recipe, front, front');
      assert before == front + [before[|before| - 1]] && after == front' + [after[|after| - 1]];
    }
  }

  // A pass that changes anything makes at least one more work correct.
  lemma PassProgress(recipe: Recipe, works: seq<Work>)
    requires Unique(works)
    ensures Unique(Pass(recipe, works))
    ensures forall i :: 0 <= i < |works| && AtTarget(recipe, works[i]) ==> Pass(recipe, works)[i] == works[i]
    ensures Pass(recipe, works) != works ==> Correct(recipe, works) < Correct(recipe, Pass(recipe, works))
  {
    PassMoves(recipe, works, |works|);
    CorrectGrows(recipe, works, Pass(recipe, works));
  }

  function Passes(recipe: Recipe, works: seq<Work>, n: nat): (r: seq<Work>)
    ensures |r| == |works|
  {
    if n == 0 then works else Pass(recipe, Passes(recipe, works, n - 1))
  }

  lemma {:induction false} SettledOrGrown(recipe: Recipe, works: seq<Work>, n: nat)
    requires Unique(works)
    ensures Unique(Passes(recipe, works, n))
    ensures Pass(recipe, Passes(recipe, works, n)) == Passes(recipe, works, n)
         || Correct(recipe, Passes(recipe, works, n)) >= Correct(recipe, works) + n
  {
    if n > 0 {
      SettledOrGrown(recipe, works, n - 1);
      PassProgress(recipe, Passes(recipe, works, n - 1));
    }
  }

  // Repeated startups change data in at most as many passes as there are works
  // off their recomputed key; from then on nothing moves again.
  lemma {:induction false} PassesSettle(recipe: Recipe, works: seq<Work>, n: nat)
    requires Unique(works) && n >= |works| - Correct(recipe, works)
    ensures Pass(recipe, Passes(recipe, works, n)) == Passes(recipe, works, n)
  {
    SettledOrGrown(recipe, works, n);
    var w := Passes(recipe, works, n);
    if Correct(recipe, w) >= |works| {
      AllCorrect(recipe, w);
      NothingToDo(recipe, w, |w|);
    }
  }

  lemma {:induction false} AllCorrect(recipe: Recipe, works: seq<Work>)
    requires Correct(recipe, works) == |works|
    ensures AllAtTarget(recipe, works)
  {
    if works != [] {
      AllCorrect(recipe, works[..|works| - 1]);
    }
  }

  // Every work is at its key, or waits for another work that sits on it.
  ghost predicate Stuck(recipe: Recipe, works: seq<Work>) {
    forall i :: 0 <= i < |works| ==> AtTarget(recipe, works[i]) || Taken(recipe, works, i)
  }

  lemma {:induction false} NothingToDo(recipe: Recipe, works: seq<Work>, n: nat)
    requires Stuck(recipe, works) || AllAtTarget(recipe, works)
    requires n <= |works|
    ensures PassTo(recipe, works, n) == works
  {
    if n > 0 {
      NothingToDo(recipe, works, n - 1);
      assert Rewrite(recipe, works, n - 1) == works;
    }
  }

  // When a startup leaves the data as it is: exactly when every work that is
  // off its key waits for another one.
  lemma PassIdleIffStuck(recipe: Recipe, works: seq<Work>)
    requires Unique(works)
    ensures Pass(recipe, works) == works <==> Stuck(recipe, works)
  {
    if Stuck(recipe, works) {
      NothingToDo(recipe, works, |works|);
    } else {
      var i: nat :| i < |works| && !AtTarget(recipe, works[i]) && !Taken(recipe, works, i);
      if Pass(recipe, works) == works {
        IdleToTheEnd(recipe, works, i);
      }
    }
  }

  // A pass that ends where it began was there all along.
  lemma IdleToTheEnd(recipe: Recipe, works: seq<Work>, n: nat)
    requires Unique(works) && n < |works| && Pass(recipe, works) == works
    ensures AtTarget(recipe, works[n]) || Taken(recipe, works, n)
  {
    IdlePrefix(recipe, works, |works| - n);
    IdlePrefix(recipe, works, |works| - n - 1);
    assert PassTo(recipe, works, n + 1) == Rewrite(recipe, works, n);
  }

  lemma {:induction false} IdlePrefix(recipe: Recipe, works: seq<Work>, m: nat)
    requires Unique(works) && m <= |works| && Pass(recipe, works) == works
    ensures PassTo(recipe, works, |works| - m) == works
  {
    if m > 0 {
      IdlePrefix(recipe, works, m - 1);
      var k := |works| - m;
      PassMoves(recipe, works, k);
      var mid := PassTo(recipe, works, k);
      assert Rewrite(recipe, mid, k) == works;
      assert mid[k] == works[k];
    }
  }

  // Different recomputed keys are not enough: two works that want each other's
  // key wait for ever, and the marker is never stamped.
  lemma SwapNeverSettles()
    ensures var recipe: Recipe := (title, author) => (title, author);
            var works := [Work(1, "a", "x", ("b", "x")), Work(1, "b", "x", ("a", "x"))];
            && Unique(works)
            && Target(recipe, works[0]) != Target(recipe, works[1])
            && Pass(recipe, works) == works
            && !AllAtTarget(recipe, works)
  {
    var recipe: Recipe := (title, author) => (title, author);
    var works := [Work(1, "a", "x", ("b", "x")), Work(1, "b", "x", ("a", "x"))];
    assert works[1].key == Target(recipe, works[0]) && works[0].key == Target(recipe, works[1]);
    assert Taken(recipe, works, 0) && Taken(recipe, works, 1);
    PassIdleIffStuck(recipe, works);
    assert !AtTarget(recipe, works[0]);
  }
}
