/** The record shapes of types/users.ts that the dashboard's rules read. Strings that
    the backend may send empty stay `string` (the rules treat "" as absent); fields
    typed `string | null` become Option. */
module UserTypes {
  import opened JsText

  datatype DeleteStatus = DeleteStatus(
    isDeleted: bool,
    restoresCount: int,
    deletedAt: Option<string>,
    restoreAt: Option<string>)

  /** A user row. `roles` is an Option because the table code guards against a null
      role list (`!roles`, `roles || ["USER"]`). Addresses, preferences, account
      statistics and consent are not read by any modelled rule and are left out. */
  datatype User = User(
    userId: string,
    username: string,
    custName: string,
    email: string,
    phone: Option<string>,
    profilePicture: Option<string>,
    roles: Option<seq<string>>,
    userStatus: string,
    kycVerified: bool,
    fraudRisk: string,
    deleteStatus: DeleteStatus,
    createdAt: string,
    updatedAt: string,
    lastLogin: Option<string>,
    createdBy: string,
    updatedBy: string)

  /** UsersTableFilters: page and limit are always present, the rest may be undefined. */
  datatype Filters = Filters(
    page: int,
    limit: int,
    query: Option<string>,
    userStatus: Option<string>,
    role: Option<string>,
    sortBy: Option<string>,
    sortOrder: Option<string>)

  /** Partial<UsersTableFilters>, as an object literal passed to onFiltersChange. For an
      optional filter, None means the key is absent, Some(None) that the key is present
      with the value undefined (spread copies it), and Some(Some(v)) a value. */
  datatype FilterPatch = FilterPatch(
    page: Option<int>,
    limit: Option<int>,
    query: Option<Option<string>>,
    userStatus: Option<Option<string>>,
    role: Option<Option<string>>,
    sortBy: Option<Option<string>>,
    sortOrder: Option<Option<string>>)

  /** The empty object literal `{}`. */
  const NoChange: FilterPatch := FilterPatch(None, None, None, None, None, None, None)

  /** The `data` part of UsersResponse: one page of users and its paging figures. */
  datatype UsersPageData = UsersPageData(
    data: seq<User>,
    page: int,
    limit: int,
    totalRecords: int,
    totalPages: int,
    hasNext: bool,
    hasPrevious: bool)
}
