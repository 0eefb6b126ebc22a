/** The `/clothes` blueprint (backend-flask/app/cloth/routes.py): request
    arguments with their defaults, and the status each handler picks from the
    service's answer.  Every route sits behind `token_required`
    (`AuthUtils.TokenGuard`), which calls its handler with a `user_id` keyword
    that none of these handlers declares: `GuardedAsWritten` is the route as
    written, and the handler functions below are the bodies that `Guarded`, the
    evidently intended composition, reaches. */
module ClothRoutes {
  import opened Common
  import Db = ClothDbService
  import Auth = AuthRoutes
  import Guards = AuthUtils

  /** What a service call did: returned a value, or raised with a message. */
  datatype CallResult<T> = Returned(value: T) | Raised(message: string)

  datatype Body =
    | Items(items: seq<Db.ClothItem>)
    | Cloth(row: Db.ClothRow)
    | Message(message: string)
    | MessageWithError(message: string, error: string)
    | Flag(success: bool, message: string)
    | ImageSet(imageUrl: string)
    | RandomItems(rows: Option<seq<Db.ClothRow>>)
    | Tags(tags: Option<seq<Db.StyleRow>>)
    | ServerError   // an exception Flask turns into its own 500 page

  datatype Reply = Reply(status: int, body: Body)

  // ---------------------------------------------------------------------------
  // The token guard in front of every route
  // ---------------------------------------------------------------------------

  /** A route as written: the guard's refusals are its 401s; past the guard,
      `f(user_id=user_id, *args, **kwargs)` raises `TypeError` because no
      handler here takes `user_id`, and Flask answers its own 500 before the
      handler runs. */
  function GuardedAsWritten(g: Guards.Guard): (r: Reply)
    ensures r.status == 401 <==> g.Unauthorized?
    ensures g.Unauthorized? ==> r.body == Message(g.message)
    ensures g.Proceed? ==> r == Reply(500, ServerError)
  {
    match g
    case Unauthorized(m) => Reply(401, Message(m))
    case Proceed(_) => Reply(500, ServerError)
  }

  /** The evidently intended route: a handler that accepts the user id, so a
      request the guard lets through gets the handler's own reply. */
  function Guarded(g: Guards.Guard, handler: Reply): (r: Reply)
    ensures g.Unauthorized? ==> r == Reply(401, Message(g.message))
    ensures g.Proceed? ==> r == handler
  {
    match g
    case Unauthorized(m) => Reply(401, Message(m))
    case Proceed(_) => handler
  }

  /** As written no `/clothes` route answers anything but the guard's 401s and
      Flask's 500, whatever the handler would have answered; it agrees with the
      intended route exactly when the guard refuses or the handler itself ends
      in Flask's 500. */
  lemma AsWrittenOnlyRefuses(header: Option<string>, decode: string -> Auth.Decoded, handler: Reply)
    ensures var g := Guards.TokenGuard(header, decode);
      && GuardedAsWritten(g).status in {401, 500}
      && (GuardedAsWritten(g).status == 500 <==> g.Proceed?)
      && (GuardedAsWritten(g) == Guarded(g, handler) <==> g.Unauthorized? || handler == Reply(500, ServerError))
  {
  }

  /** `GET /clothes` with a valid Bearer token and no arguments: 500 as
      written, and the first three matching rows as intended. */
  lemma ValidTokenGetWardrobe(rows: seq<Db.ClothRow>, token: string, decode: string -> Auth.Decoded)
    requires token != "" && ' ' !in token
    requires decode(token).Payload? && decode(token).sub.Some?
    ensures var g := Guards.TokenGuard(Some("Bearer " + token), decode);
      && GuardedAsWritten(g) == Reply(500, ServerError)
      && Guarded(g, GetWardrobe(rows, None, None, None)) == Reply(200, Items(Db.ClothesByType(rows, None, 3, 0)))
  {
    Guards.AnySchemeAccepted("Bearer", token);
    assert "Bearer" + " " + token == "Bearer " + token;
    DefaultQuery(rows);
  }

  // ---------------------------------------------------------------------------
  // GET /clothes
  // ---------------------------------------------------------------------------

  const DefaultLimit := 3
  const DefaultOffset := 0

  /** `request.args.get("type", "all").lower()`. */
  function CategoryArg(typeArg: Option<string>): string {
    ToLower(if typeArg.Some? then typeArg.value else "all")
  }

  /** The category handed to the query: none for "" and "all". */
  function CategoryFilter(typeArg: Option<string>): (c: Option<string>)
    ensures c.None? <==> CategoryArg(typeArg) in {"", "all"}
    ensures c.Some? ==> c.value == CategoryArg(typeArg) && Db.Truthy(c)
  {
    var category := CategoryArg(typeArg);
    if category == "" || category == "all" then None else Some(category)
  }

  /** `int(request.args.get(name, default))`: `None` when `int()` raises. */
  function IntArg(arg: Option<string>, default: int): (r: Option<int>)
    ensures arg.None? ==> r == Some(default)
    ensures arg.Some? ==> r == Db.PyInt(arg.value)
  {
    if arg.None? then Some(default) else Db.PyInt(arg.value)
  }

  /** `get_wardrobe`: an argument `int()` refuses ends in Flask's 500;
      otherwise one page of the (possibly filtered) wardrobe. */
  function GetWardrobe(rows: seq<Db.ClothRow>, typeArg: Option<string>, limitArg: Option<string>,
                       offsetArg: Option<string>): (r: Reply)
    ensures r.status == 200 <==> IntArg(limitArg, DefaultLimit).Some? && IntArg(offsetArg, DefaultOffset).Some?
    ensures r.status != 200 ==> r == Reply(500, ServerError)
    ensures r.status == 200 ==>
      r.body == Items(Db.ClothesByType(rows, CategoryFilter(typeArg), IntArg(limitArg, DefaultLimit).value,
                                       IntArg(offsetArg, DefaultOffset).value))
  {
    match (IntArg(limitArg, DefaultLimit), IntArg(offsetArg, DefaultOffset))
    case (Some(limit), Some(offset)) => Reply(200, Items(Db.ClothesByType(rows, CategoryFilter(typeArg), limit, offset)))
    case _ => Reply(500, ServerError)
  }

  /** With no arguments the route returns the first three matching rows of
      the whole wardrobe. */
  lemma DefaultQuery(rows: seq<Db.ClothRow>)
    ensures GetWardrobe(rows, None, None, None) == Reply(200, Items(Db.ClothesByType(rows, None, 3, 0)))
  {
    assert ToLower("all") == "all";
  }

  /** The type argument is case-insensitive. */
  lemma TypeCaseInsensitive(rows: seq<Db.ClothRow>, t: string, limitArg: Option<string>, offsetArg: Option<string>)
    ensures GetWardrobe(rows, Some(t), limitArg, offsetArg) == GetWardrobe(rows, Some(ToLower(t)), limitArg, offsetArg)
  {
    ToLowerIdempotent(t);
  }

  /** "all" in any letter case, and the empty type, mean no filter. */
  lemma AllMeansEverything(rows: seq<Db.ClothRow>, t: string, limitArg: Option<string>, offsetArg: Option<string>)
    requires ToLower(t) == "all" || t == ""
    ensures GetWardrobe(rows, Some(t), limitArg, offsetArg) == GetWardrobe(rows, None, limitArg, offsetArg)
  {
    assert ToLower("all") == "all";
  }

  // ---------------------------------------------------------------------------
  // POST /clothes
  // ---------------------------------------------------------------------------

  /** `insert_update_cloth`: the service's result decides the status; a
      `None` result is falsy. */
  function InsertUpdateCloth(result: CallResult<Option<Db.ClothRow>>): (r: Reply)
    ensures r.status == 201 <==> result.Returned? && result.value.Some?
    ensures r.status == 201 ==> r.body == Cloth(result.value.value)
    ensures result.Returned? && result.value.None? ==> r == Reply(500, Message("Insert failed"))
    ensures result.Raised? ==> r == Reply(500, Message(result.message))
  {
    match result
    case Raised(m) => Reply(500, Message(m))
    case Returned(None) => Reply(500, Message("Insert failed"))
    case Returned(Some(row)) => Reply(201, Cloth(row))
  }

  // ---------------------------------------------------------------------------
  // PUT /clothes/<id>/image
  // ---------------------------------------------------------------------------

  /** `update_cloth_image`: the update runs only for a non-empty `image_url`;
      `update` stands for `update_cloth_url`. */
  function UpdateClothImage(imageUrl: Option<string>, update: string -> CallResult<bool>): (r: Reply)
    ensures !Db.Truthy(imageUrl) ==> r == Reply(400, Flag(false, "image_url is required"))
    ensures r.status == 200 <==> Db.Truthy(imageUrl) && update(imageUrl.value) == Returned(true)
    ensures r.status == 200 ==> r.body == ImageSet(imageUrl.value)
    ensures Db.Truthy(imageUrl) && update(imageUrl.value) == Returned(false) ==>
              r == Reply(500, Flag(false, "Failed to update image"))
    ensures Db.Truthy(imageUrl) && update(imageUrl.value).Raised? ==>
              r == Reply(500, Flag(false, update(imageUrl.value).message))
  {
    if !Db.Truthy(imageUrl) then Reply(400, Flag(false, "image_url is required"))
    else match update(imageUrl.value)
      case Raised(m) => Reply(500, Flag(false, m))
      case Returned(false) => Reply(500, Flag(false, "Failed to update image"))
      case Returned(true) => Reply(200, ImageSet(imageUrl.value))
  }

  // ---------------------------------------------------------------------------
  // GET /clothes/random and GET /clothes/style-tags
  // ---------------------------------------------------------------------------

  /** `get_random_clothes`: a `None` from the service (which catches its own
      errors) is still a 200 with `null`. */
  function RandomClothes(result: CallResult<Option<seq<Db.ClothRow>>>): (r: Reply)
    ensures r.status == 200 <==> result.Returned?
    ensures result.Returned? ==> r.body == RandomItems(result.value)
    ensures result.Raised? ==> r == Reply(500, Message(result.message))
  {
    match result
    case Raised(m) => Reply(500, Message(m))
    case Returned(rows) => Reply(200, RandomItems(rows))
  }

  /** `get_style_tags` answers 200 whatever `fetch_style_tags` returned. */
  function StyleTags(tags: Option<seq<Db.StyleRow>>): (r: Reply)
    ensures r.status == 200 && r.body.Tags? && r.body.tags == tags
  {
    Reply(200, Tags(tags))
  }

  // ---------------------------------------------------------------------------
  // DELETE /clothes/<id>
  // ---------------------------------------------------------------------------

  const DeleteErrorMessage := "An error occurred while deleting the cloth item"

  /** `delete_cloth` over the clothes table: id 0 is refused before any call;
      `raises` stands for a failing delete, reported with `error`. */
  function DeleteClothRoute(table: seq<Db.ClothRow>, id: nat, raises: bool, error: string): (r: (seq<Db.ClothRow>, Reply))
    ensures id == 0 ==> r == (table, Reply(400, Message("Cloth ID is required")))
    ensures id != 0 && raises ==> r == (table, Reply(500, MessageWithError(DeleteErrorMessage, error)))
    ensures r.1.status == 200 <==> id != 0 && !raises && exists x :: x in table && x.id == id
    ensures r.1.status == 404 <==> id != 0 && !raises && forall x :: x in table ==> x.id != id
    ensures r.1.status == 404 ==> r.0 == table && r.1.body == Message("Cloth not found or delete failed")
    ensures r.1.status == 200 ==> r.0 == Db.DeleteCloth(table, id).0 && r.1.body == Message("Cloth deleted successfully")
  {
    if id == 0 then (table, Reply(400, Message("Cloth ID is required")))
    else if raises then (table, Reply(500, MessageWithError(DeleteErrorMessage, error)))
    else
      var (rest, deleted) := Db.DeleteCloth(table, id);
      if !deleted then (table, Reply(404, Message("Cloth not found or delete failed")))
      else (rest, Reply(200, Message("Cloth deleted successfully")))
  }

  /** Deleting the same cloth twice: the second request is a 404. */
  lemma DeleteRouteTwice(table: seq<Db.ClothRow>, id: nat)
    requires id != 0
    ensures DeleteClothRoute(DeleteClothRoute(table, id, false, "").0, id, false, "").1.status == 404
  {
  }
}
