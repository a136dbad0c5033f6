/** The article list of a PR session: the approval checkbox, the status
    update it issues, the workflow webhook that follows an approval, and the
    update of the list shown on screen. */
module SessionArticles {
  import opened Wrappers
  import opened Schema

  const Approved := "approved"
  const Draft := "draft"

  /** The status a checkbox change asks for. */
  function StatusFor(checked: bool): (status: string)
    ensures status == Approved || status == Draft
    ensures (status == Approved) == checked
  {
    if checked then Approved else Draft
  }

  /** A row's checkbox is shown checked exactly when its status is approved. */
  predicate ShowsChecked(a: Article)
    ensures ShowsChecked(a) <==> a.status == StatusFor(true)
    ensures a.status == StatusFor(false) ==> !ShowsChecked(a)
  {
    a.status == Approved
  }

  /** Sets the status of every article with the given id, leaving all other
      fields and all other articles as they are. */
  function SetStatus(articles: seq<Article>, id: string, status: string): (r: seq<Article>)
    ensures |r| == |articles|
    ensures forall i :: 0 <= i < |r| ==> r[i].id == articles[i].id
    ensures forall i :: 0 <= i < |r| && articles[i].id == id ==> r[i] == articles[i].(status := status)
    ensures forall i :: 0 <= i < |r| && articles[i].id != id ==> r[i] == articles[i]
  {
    if |articles| == 0 then []
    else
      var head := if articles[0].id == id then articles[0].(status := status) else articles[0];
      var rest := SetStatus(articles[1..], id, status);
      assert forall i :: 1 <= i < |articles| ==> ([head] + rest)[i] == rest[i - 1] && articles[i] == articles[1..][i - 1];
      [head] + rest
  }

  /** After a successful change every row of the article shows the requested
      checkbox state, and every other row shows what it showed before. */
  lemma CheckboxShowsRequest(articles: seq<Article>, id: string, checked: bool)
    ensures forall a :: a in SetStatus(articles, id, StatusFor(checked)) && a.id == id ==> ShowsChecked(a) == checked
    ensures forall i :: 0 <= i < |articles| && articles[i].id != id ==>
      ShowsChecked(SetStatus(articles, id, StatusFor(checked))[i]) == ShowsChecked(articles[i])
  {
    var r := SetStatus(articles, id, StatusFor(checked));
    forall a | a in r && a.id == id ensures ShowsChecked(a) == checked {
      var i :| 0 <= i < |r| && r[i] == a;
      assert articles[i].id == id;
    }
  }

  /** Setting a status twice is the same as setting the last one. */
  lemma {:induction false} LastStatusWins(articles: seq<Article>, id: string, first: string, second: string)
    ensures SetStatus(SetStatus(articles, id, first), id, second) == SetStatus(articles, id, second)
  {
    var lhs := SetStatus(SetStatus(articles, id, first), id, second);
    var rhs := SetStatus(articles, id, second);
    assert |lhs| == |rhs|;
    forall i | 0 <= i < |lhs| ensures lhs[i] == rhs[i] {
    }
  }

  /** What the webhook call ends in: an ok answer, or a non-ok answer or
      network failure (both are caught the same way). */
  datatype WebhookResult = WebhookOk | WebhookFailed

  /** The effect of one checkbox change. */
  datatype StatusChange = StatusChange(
    stored: seq<Article>,         // the `pr_articles` rows afterwards
    webhookCalled: bool,          // whether the next-workflow webhook was attempted
    workflowWarning: bool,        // whether "Failed to trigger the next workflow" was reported
    error: Option<string>,        // the failure reported by the mutation, if it failed
    shown: seq<Article>)          // the article list on screen afterwards

  /** Changes the status of article `id` after its checkbox was set to
      `checked`. `storeError` is the error of the row update, if any;
      `webhook` is what the webhook call would end in. */
  function ChangeStatus(stored: seq<Article>, shown: seq<Article>, id: string, checked: bool,
                        storeError: Option<string>, webhook: WebhookResult): (c: StatusChange)
    // A failed row update stops the mutation before the webhook, and the list is kept.
    ensures storeError.Some? ==>
      c == StatusChange(stored, false, false, Some("Failed to update article status: " + storeError.value), shown)
    // The webhook is attempted exactly when the update succeeded and the article was approved.
    ensures c.webhookCalled <==> storeError.None? && checked
    // A failing webhook only warns: the mutation still succeeds.
    ensures c.error.None? <==> storeError.None?
    ensures c.workflowWarning <==> c.webhookCalled && webhook == WebhookFailed
    // On success the rows and the list carry the requested status.
    ensures storeError.None? ==>
      c.stored == SetStatus(stored, id, StatusFor(checked)) && c.shown == SetStatus(shown, id, StatusFor(checked))
  {
    var status := StatusFor(checked);
    match storeError
    case Some(e) =>
      StatusChange(stored, false, false, Some("Failed to update article status: " + e), shown)
    case None =>
      var called := status == Approved;
      StatusChange(SetStatus(stored, id, status), called, called && webhook == WebhookFailed,
                   None, SetStatus(shown, id, status))
  }
}
