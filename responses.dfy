/**
  What a handler answers: a rendered view with its status and the fields the
  template uses, a redirect, or an unhandled fault. Titles and the shared
  navigation links are the same on every page and are left out.
 */
module Responses {

  import opened Wrappers
  import opened Directory
  import opened Validation

  const Ok: int := 200
  const Forbidden: int := 403
  const NotFound: int := 404

  const RootPath: string := "/"
  const MembersPath: string := "/members"

  datatype Page =
    | WelcomePage
    | HomePage(name: string)
    | SignupPage(error: Option<Message>)
    | LoginPage(error: Option<Message>)
    | MembersPage(name: string)
    | NoAccessPage
    | AdminPage(userList: seq<User>, updatedUser: Option<string>, newRole: Option<string>)
    | LogoutPage
    | NotFoundPage

  datatype Response =
    | Render(status: int, page: Page)
    | Redirect(path: string)
    | Fault
}
