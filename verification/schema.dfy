/** The rows of the hosted database that the screens read and write, and the
    `user_role` enum. */
module Schema {
  import opened Wrappers

  /** The `user_role` enum. */
  datatype Role = Customer | Admin | Superadmin

  /** The stored spelling of a role. */
  function RoleName(role: Role): (r: string) {
    match role
    case Customer => "customer"
    case Admin => "admin"
    case Superadmin => "superadmin"
  }

  /** `z.enum(["customer", "admin", "superadmin"])`: only the three stored
      spellings are accepted, each as the role it names. */
  function ParseRole(s: string): (r: Option<Role>)
    ensures r.Some? <==> (s == "customer" || s == "admin" || s == "superadmin")
    ensures r.Some? ==> RoleName(r.value) == s
    ensures forall role :: RoleName(role) == s ==> r == Some(role)
  {
    if s == "customer" then Some(Customer)
    else if s == "admin" then Some(Admin)
    else if s == "superadmin" then Some(Superadmin)
    else None
  }

  /** A row of `users`. */
  datatype User = User(
    id: string,
    authId: Option<string>,
    email: string,
    firstName: string,
    lastName: string,
    phone: Option<string>,
    role: Role,
    createdAt: Option<string>,
    updatedAt: Option<string>,
    bio: Option<string>,
    industry: Option<string>,
    subjectMatter: Option<string>,
    audience: Option<string>,
    usp: Option<string>,
    writingStyle: Option<string>,
    keywords: Option<seq<string>>)

  /** A row of `pr_articles`. */
  datatype Article = Article(
    id: string,
    sessionId: string,
    title: string,
    author: string,
    content: string,
    url: string,
    status: string,
    confidenceScore: Option<int>,
    createdAt: Option<string>,
    updatedAt: Option<string>)

  /** A row of `pr_talking_points`. */
  datatype TalkingPoint = TalkingPoint(
    id: string,
    articleId: string,
    content: string,
    createdAt: Option<string>,
    updatedAt: Option<string>)

  /** A row of `invitations`. */
  datatype Invitation = Invitation(
    id: string,
    email: string,
    role: string,
    status: string,
    createdAt: Option<string>,
    expiresAt: Option<string>,
    invitedBy: Option<string>)
}
