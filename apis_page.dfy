/**
 * The list of a user's endpoints (app/dashboard/apis/page.tsx): the public URL
 * each card shows and copies, the card's name and description fallbacks,
 * loading the list, and deleting an endpoint (its schema rows first, then the
 * endpoint row, then the entry in the local list).
 *
 * The database answers come from oracle parameters; the deletes the page sends
 * are kept, in order, with the error each got.
 */
module ApisPage {
  import opened Wrappers
  import opened Text
  import CreateApi

  type UserId = string

  const DefaultDescription: string := "No description provided"

  /** A row of `api_endpoints` as the list shows it; a missing name or description is `None`. */
  datatype Api = Api(id: string, name: Option<string>, description: Option<string>, endpointPath: string)

  /** The stored path without its leading `/`, if it has one. */
  function StripSlash(path: string): (rest: string)
    ensures |path| > 0 && path[0] == '/' ==> rest == path[1..]
    ensures !(|path| > 0 && path[0] == '/') ==> rest == path
  {
    if |path| > 0 && path[0] == '/' then path[1..] else path
  }

  /** The endpoint's public URL under `origin`, as the card shows it and the copy button copies it. */
  function EndpointUrl(origin: string, api: Api): string
  {
    origin + "/api/spineless/" + api.id + "/" + StripSlash(api.endpointPath)
  }

  /**
   * The URL is the origin, the fixed route prefix, the id and then the stored
   * path with at most one leading `/` removed.
   */
  lemma EndpointUrlLayout(origin: string, api: Api)
    ensures var url := EndpointUrl(origin, api);
      var rest := url[|origin| + |"/api/spineless/"| + |api.id| + 1..];
      && url[..|origin|] == origin
      && url[|origin|..|origin| + |"/api/spineless/"|] == "/api/spineless/"
      && url[|origin| + |"/api/spineless/"|..|origin| + |"/api/spineless/"| + |api.id|] == api.id
      && url[|origin| + |"/api/spineless/"| + |api.id|] == '/'
      && rest == api.endpointPath[|api.endpointPath| - |rest|..]
      && |api.endpointPath| - |rest| == (if |api.endpointPath| > 0 && api.endpointPath[0] == '/' then 1 else 0)
  {
    var p, q, r := origin, "/api/spineless/" + api.id + "/", StripSlash(api.endpointPath);
    assert EndpointUrl(origin, api) == p + q + r;
  }

  /**
   * For a path stored by the creation form, the URL ends with exactly the
   * typed path lower-cased, without the `/` the form put in front or the one
   * that was typed.
   */
  lemma UrlOfCreatedPath(origin: string, id: string, name: Option<string>, description: Option<string>, typed: string)
    ensures var api := Api(id, name, description, CreateApi.FormatPath(typed));
      EndpointUrl(origin, api)
      == origin + "/api/spineless/" + id + "/" + LowerString(StripSlash(typed))
  {
    if |typed| > 0 && typed[0] == '/' {
      assert LowerString(typed)[1..] == LowerString(typed[1..]);
    } else {
      assert ("/" + LowerString(typed))[1..] == LowerString(typed);
    }
  }

  /** `value || fallback` for an optional text: a missing or empty text gives way. */
  function OrElse(value: Option<string>, fallback: string): (r: string)
    ensures value.Some? && value.value != "" ==> r == value.value
    ensures value.None? || value.value == "" ==> r == fallback
  {
    if value.Some? && value.value != "" then value.value else fallback
  }

  /** The card title: the name, or the stored path when the endpoint has no name. */
  function CardName(api: Api): string
  {
    OrElse(api.name, api.endpointPath)
  }

  /** The card text: the description, or "No description provided". */
  function CardDescription(api: Api): string
  {
    OrElse(api.description, DefaultDescription)
  }

  /**
   * A card never shows an empty description, and never an empty title for an
   * endpoint whose path was stored by the creation form.
   */
  lemma CardTextsNonEmpty(api: Api, typed: string)
    requires api.endpointPath == CreateApi.FormatPath(typed)
    ensures CardName(api) != ""
    ensures CardDescription(api) != ""
    ensures CardName(api) == api.endpointPath <==> (api.name.None? || api.name.value == "" || api.name.value == api.endpointPath)
  {
    CreateApi.FormatPathShape(typed);
  }

  /** `apis.filter(api => api.id !== id)`. */
  function Without(apis: seq<Api>, id: string): seq<Api>
  {
    if apis == [] then []
    else if apis[0].id == id then Without(apis[1..], id)
    else [apis[0]] + Without(apis[1..], id)
  }

  /** The filter keeps exactly the entries with another id, and none is left with that id. */
  lemma {:induction false} WithoutMembers(apis: seq<Api>, id: string)
    ensures forall a :: a in Without(apis, id) <==> a in apis && a.id != id
    ensures |Without(apis, id)| <= |apis|
    ensures (forall k :: 0 <= k < |apis| ==> apis[k].id != id) ==> Without(apis, id) == apis
  {
    if apis != [] {
      WithoutMembers(apis[1..], id);
      assert forall a :: a in apis <==> a == apis[0] || a in apis[1..];
    }
  }

  /** Filtering a concatenation filters each part in place: the kept entries keep their order. */
  lemma {:induction false} WithoutConcat(a: seq<Api>, b: seq<Api>, id: string)
    ensures Without(a + b, id) == Without(a, id) + Without(b, id)
  {
    if a == [] {
      assert a + b == b;
    } else {
      assert (a + b)[0] == a[0] && (a + b)[1..] == a[1..] + b;
      WithoutConcat(a[1..], b, id);
    }
  }

  /** Removing an id twice removes no more than removing it once. */
  lemma {:induction false} WithoutIdempotent(apis: seq<Api>, id: string)
    ensures Without(Without(apis, id), id) == Without(apis, id)
  {
    if apis != [] {
      WithoutIdempotent(apis[1..], id);
    }
  }

  /** One delete the page sent, with the error it got (`None` on success). */
  datatype Delete =
    | SchemaDelete(endpointId: string, error: Option<string>)
    | EndpointDelete(id: string, error: Option<string>)

  /**
   * Every endpoint delete comes right after a successful delete of that
   * endpoint's schema rows.
   */
  predicate SchemasDeletedFirst(log: seq<Delete>)
  {
    forall i :: 0 <= i < |log| && log[i].EndpointDelete? ==>
      i > 0 && log[i - 1] == SchemaDelete(log[i].id, None)
  }

  /** What the `api_endpoints` query answers: rows (possibly null), or an error. */
  datatype FetchAnswer = Rows(data: Option<seq<Api>>) | FetchError(message: string)

  class ApisPage {
    var apis: seq<Api>
    var isLoading: bool
    var deleteApiId: Option<string>
    var isDeleting: bool
    var deleteDialogOpen: bool
    /** The deletes sent to `api_schemas` and `api_endpoints`, in order. */
    var deletes: seq<Delete>

    /** The page as it mounts: an empty list, loading. */
    constructor ()
      ensures apis == [] && isLoading && deleteApiId.None? && !isDeleting && !deleteDialogOpen
      ensures deletes == [] && SchemasDeletedFirst(deletes)
    {
      apis := [];
      isLoading := true;
      deleteApiId := None;
      isDeleting := false;
      deleteDialogOpen := false;
      deletes := [];
    }

    /** `fetchApis`: without a user only loading ends; otherwise the answer's rows replace the list. */
    method FetchApis(user: Option<UserId>, query: UserId -> FetchAnswer)
      modifies this
      ensures !isLoading
      ensures user.None? ==> apis == old(apis)
      ensures user.Some? ==>
        apis == (match query(user.value)
                 case Rows(data) => data.GetOr([])
                 case FetchError(_) => old(apis))
      ensures deleteApiId == old(deleteApiId) && isDeleting == old(isDeleting)
      ensures deleteDialogOpen == old(deleteDialogOpen) && deletes == old(deletes)
    {
      if user.None? {
        isLoading := false;
        return;
      }
      var answer := query(user.value);
      if answer.Rows? {
        apis := answer.data.GetOr([]);
      }
      isLoading := false;
    }

    /** A card's delete button: remember the endpoint and open the confirmation dialog. */
    method OnDelete(id: string)
      modifies this
      ensures deleteApiId == Some(id) && deleteDialogOpen
      ensures apis == old(apis) && isLoading == old(isLoading) && isDeleting == old(isDeleting)
      ensures deletes == old(deletes)
    {
      deleteApiId := Some(id);
      deleteDialogOpen := true;
    }

    /**
     * `deleteApi`. Without a selected endpoint nothing happens. Otherwise its
     * schema rows are deleted, then, only if that worked, the endpoint row,
     * and, only if that worked too, its entries leave the list and the dialog
     * closes. Whatever happened, the selection is cleared and the page is no
     * longer deleting.
     */
    method DeleteApi(deleteSchemas: string -> Option<string>, deleteEndpoint: string -> Option<string>)
      modifies this
      ensures old(deleteApiId).None? || old(deleteApiId).value == "" ==> unchanged(this)
      ensures old(deleteApiId).Some? && old(deleteApiId).value != "" ==>
        var id := old(deleteApiId).value;
        var schemaErr := deleteSchemas(id);
        var endpointErr := deleteEndpoint(id);
        && deleteApiId.None? && !isDeleting && isLoading == old(isLoading)
        && (schemaErr.Some? ==>
              deletes == old(deletes) + [SchemaDelete(id, schemaErr)]
              && apis == old(apis) && deleteDialogOpen == old(deleteDialogOpen))
        && (schemaErr.None? ==>
              deletes == old(deletes) + [SchemaDelete(id, None), EndpointDelete(id, endpointErr)])
        && (schemaErr.None? && endpointErr.Some? ==>
              apis == old(apis) && deleteDialogOpen == old(deleteDialogOpen))
        && (schemaErr.None? && endpointErr.None? ==>
              apis == Without(old(apis), id) && !deleteDialogOpen)
      ensures SchemasDeletedFirst(old(deletes)) ==> SchemasDeletedFirst(deletes)
    {
      if deleteApiId.None? || deleteApiId.value == "" {
        return;
      }
      var id := deleteApiId.value;
      isDeleting := true;
      var schemaErr := deleteSchemas(id);
      DeletesKeepOrder(deletes, id, schemaErr, deleteEndpoint(id));
      deletes := deletes + [SchemaDelete(id, schemaErr)];
      if schemaErr.None? {
        var endpointErr := deleteEndpoint(id);
        deletes := deletes + [EndpointDelete(id, endpointErr)];
        if endpointErr.None? {
          apis := Without(apis, id);
          deleteDialogOpen := false;
        }
      }
      isDeleting := false;
      deleteApiId := None;
    }
  }

  /**
   * Sending a schema delete, followed by the endpoint delete only when the
   * schema delete succeeded, keeps every endpoint delete behind its schema
   * delete.
   */
  lemma DeletesKeepOrder(log: seq<Delete>, id: string, schemaErr: Option<string>, endpointErr: Option<string>)
    ensures SchemasDeletedFirst(log) ==> SchemasDeletedFirst(log + [SchemaDelete(id, schemaErr)])
    ensures SchemasDeletedFirst(log) && schemaErr.None? ==>
      SchemasDeletedFirst(log + [SchemaDelete(id, schemaErr)] + [EndpointDelete(id, endpointErr)])
  {
    var l1 := log + [SchemaDelete(id, schemaErr)];
    assert forall i :: 0 <= i < |log| ==> l1[i] == log[i];
    var l2 := l1 + [EndpointDelete(id, endpointErr)];
    assert forall i :: 0 <= i < |l1| ==> l2[i] == l1[i];
  }
}
