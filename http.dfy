/** What a handler answers: an HTTP status, the message it carries, an optional payload and the
    one write to commit. The messages are named after their meaning; their wording is not modelled. */
module Http {
  import opened Common
  import opened Models
  import opened Store
  import opened Validation
  import opened AuthMiddleware

  /** Which unique column a registration collides with. */
  datatype TakenField = UsernameField | EmailField

  datatype Msg =
    // middleware/auth.js, and the rights message userController.js shares with it
    | Denied(reason: AuthMsg)
    // authController.js
    | ValidationFailed(errors: seq<FieldError>) | AlreadyUsed(field: TakenField) | Registered
    | BadCredentials | AccountDisabled | LoggedIn | ServerError
    // productController.js
    | ProductsListed | InvalidSortField | InvalidSortOrder | ProductNotFound | NoRightToView
    | ProductFetched | LoginFirst | CategoryMissing | MerchantMissing | NotAMerchant
    | MerchantRequired | ProductCreated | NoRightToUpdate | ProductUpdated | NoRightToDelete
    | ProductDeleted
    // userController.js
    | UsersListed | UserNotFound | UserFetched | UserUpdated | WrongOldPassword | PasswordUpdated
    | CannotDeleteSelf | UserDeleted | CannotDisableSelf | StatusToggled(now: Status)
    // categoryController.js
    | CategoriesListed | CategoryCreated | CategoryNameTaken | CategoryNotFound | CategoryUpdated
    | CategoryInUse(count: nat) | CategoryDeleted | InvalidCategoryData

  /** A handler's answer; `body` is the `data` of a success response. */
  datatype Reply<D> = Reply(status: int, msg: Msg, body: Option<D>, effect: Effect)

  /** An answer without payload or write, as every error response is. */
  function Refuse<D>(status: int, msg: Msg): Reply<D>
  {
    Reply(status, msg, None, NoEffect)
  }

  /** The query a listing handler hands to `findAndCountAll`. */
  datatype FindSpec<W> = FindSpec(where: W, sortBy: string, order: string, limit: int, offset: int)

  datatype Listing<W> = Rejected(status: int, msg: Msg) | Find(spec: FindSpec<W>)

  /** `(page - 1) * limit`. */
  function Offset(page: int, limit: int): (offset: int)
    ensures page >= 1 && limit >= 0 ==> offset >= 0
    ensures offset == page * limit - limit
  {
    (page - 1) * limit
  }
}
