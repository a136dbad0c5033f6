/** The talking-points dialog: a list of selected ids that a checkbox
    toggles, and the approval post built from the selected points. */
module TalkingPoints {
  import opened Wrappers
  import opened Seqs
  import opened Schema

  /** The test that keeps every id but `id`. */
  function Other(id: string): string -> bool {
    x => x != id
  }

  /** Flips the membership of `id`: a selected id is removed, wherever it
      occurs, and an unselected one is appended. */
  function Toggle(selected: seq<string>, id: string): (r: seq<string>)
    ensures id in r <==> id !in selected
    ensures forall other :: other != id ==> (other in r <==> other in selected)
    ensures id !in selected ==> r == selected + [id]
  {
    if id in selected then Filter(selected, Other(id)) else selected + [id]
  }

  /** Removing a selected id keeps the others in their order: the ids
      before it, then the ids after it. */
  lemma {:induction false} ToggleRemoves(before: seq<string>, id: string, after: seq<string>)
    requires id !in before && id !in after
    ensures Toggle(before + [id] + after, id) == before + after
  {
    var p := Other(id);
    assert Filter(before + [id], p) == before by {
      FilterConcat(before, [id], p);
      FilterKeepsAll(before, p);
      assert Filter([id], p) == [];
      assert before + [] == before;
    }
    assert Filter(after, p) == after by {
      FilterKeepsAll(after, p);
    }
    assert Filter(before + [id] + after, p) == before + after by {
      FilterConcat(before + [id], after, p);
    }
    assert id in before + [id] + after by {
      assert (before + [id] + after)[|before|] == id;
    }
  }

  /** Toggling an unselected id twice restores the selection exactly. */
  lemma {:induction false} ToggleTwice(selected: seq<string>, id: string)
    requires id !in selected
    ensures Toggle(Toggle(selected, id), id) == selected
  {
    ToggleRemoves(selected, id, []);
    assert selected + [id] + [] == selected + [id];
    assert selected + [] == selected;
  }

  /** A toggle keeps a selection free of duplicates. */
  lemma ToggleNoDuplicates(selected: seq<string>, id: string)
    requires NoDuplicates(selected)
    ensures NoDuplicates(Toggle(selected, id))
  {
    if id in selected {
      FilterNoDuplicates(selected, Other(id));
    }
  }

  /** The selection after clicking the checkboxes of `clicks` in turn. */
  function ToggleAll(selected: seq<string>, clicks: seq<string>): (r: seq<string>)
    decreases |clicks|
  {
    if |clicks| == 0 then selected else ToggleAll(Toggle(selected, clicks[0]), clicks[1..])
  }

  /** From the initial empty selection, any sequence of clicks leaves a
      duplicate-free selection. */
  lemma {:induction false} ClicksKeepNoDuplicates(selected: seq<string>, clicks: seq<string>)
    requires NoDuplicates(selected)
    ensures NoDuplicates(ToggleAll(selected, clicks))
    decreases |clicks|
  {
    if |clicks| > 0 {
      ToggleNoDuplicates(selected, clicks[0]);
      ClicksKeepNoDuplicates(Toggle(selected, clicks[0]), clicks[1..]);
    }
  }

  /** One click flips exactly the clicked id. */
  lemma ToggleFlips(selected: seq<string>, id: string, x: string)
    ensures (x in Toggle(selected, id)) == ((x in selected) != (x == id))
  {
  }

  /** After a sequence of clicks, an id is selected exactly when it was
      selected before and was clicked an even number of times, or was not
      selected and was clicked an odd number of times. */
  lemma {:induction false} ClicksParity(selected: seq<string>, clicks: seq<string>, x: string)
    ensures (x in ToggleAll(selected, clicks)) == ((x in selected) != (Count(clicks, x) % 2 == 1))
    decreases |clicks|
  {
    if |clicks| > 0 {
      var t := Toggle(selected, clicks[0]);
      var n := Count(clicks[1..], x);
      assert (x in ToggleAll(selected, clicks)) == ((x in t) != (n % 2 == 1)) by {
        ClicksParity(t, clicks[1..], x);
      }
      assert (x in t) == ((x in selected) != (x == clicks[0])) by {
        ToggleFlips(selected, clicks[0], x);
      }
      assert (Count(clicks, x) % 2 == 1) == ((x == clicks[0]) != (n % 2 == 1)) by {
        assert Count(clicks, x) == (if clicks[0] == x then 1 else 0) + n;
        OddSuccessor(n);
      }
    }
  }

  /** Adding one flips parity. */
  lemma OddSuccessor(n: nat)
    ensures ((n + 1) % 2 == 1) == (n % 2 != 1)
  {
  }

  /** The fetched points whose id is selected, in fetched order; no points
      fetched yet gives none. */
  function ApprovedPoints(fetched: Option<seq<TalkingPoint>>, selected: seq<string>): (r: seq<TalkingPoint>)
    ensures fetched.None? ==> r == []
    ensures forall tp :: tp in r <==> fetched.Some? && tp in fetched.value && tp.id in selected
    ensures fetched.Some? ==> forall tp :: Count(r, tp) == if tp.id in selected then Count(fetched.value, tp) else 0
  {
    match fetched
    case None => []
    case Some(points) =>
      var p := (tp: TalkingPoint) => tp.id in selected;
      forall tp ensures Count(Filter(points, p), tp) == if p(tp) then Count(points, tp) else 0 {
        FilterCounts(points, p, tp);
      }
      Filter(points, p)
  }

  /** The approved points keep the fetched order: the approved points of a
      concatenation are those of each part, one after the other. */
  lemma ApprovedPointsInOrder(a: seq<TalkingPoint>, b: seq<TalkingPoint>, selected: seq<string>)
    ensures ApprovedPoints(Some(a + b), selected)
         == ApprovedPoints(Some(a), selected) + ApprovedPoints(Some(b), selected)
  {
    FilterConcat(a, b, (tp: TalkingPoint) => tp.id in selected);
  }

  /** The body posted to the approvals workflow. */
  datatype ApprovalPost = ApprovalPost(articleId: string, userId: string, approved: seq<TalkingPoint>)

  /** What pressing "save" does. */
  datatype SaveOutcome =
    | NotSaved                                       // no article: nothing happens
    | NoUser                                         // no signed-in user: fails before posting
    | Posted(post: ApprovalPost, accepted: bool)     // the post was sent; `accepted` is the webhook's ok

  /** Saving the approvals of article `articleId` for the signed-in user
      `userId`; `webhookOk` is whether the workflow webhook answered ok. */
  function SaveApprovals(articleId: Option<string>, userId: Option<string>,
                         fetched: Option<seq<TalkingPoint>>, selected: seq<string>,
                         webhookOk: bool): (o: SaveOutcome)
    ensures (articleId.None? || articleId.value == "") <==> o == NotSaved
    ensures articleId.Some? && articleId.value != "" && userId.None? ==> o == NoUser
    ensures articleId.Some? && articleId.value != "" && userId.Some? ==> o.Posted?
    ensures o.Posted? ==> o.post.articleId == articleId.value && Some(o.post.userId) == userId
    ensures o.Posted? ==> o.post.approved == ApprovedPoints(fetched, selected) && o.accepted == webhookOk
  {
    if articleId.None? || articleId.value == "" then NotSaved
    else if userId.None? then NoUser
    else Posted(ApprovalPost(articleId.value, userId.value, ApprovedPoints(fetched, selected)), webhookOk)
  }
}
