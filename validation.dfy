/**
  The checks the signup and login handlers run on the submitted form before
  touching the collection: first one "can not be empty" check per field, in
  a fixed order, then the Joi schema, which reports only its first
  violation. The email syntax Joi accepts is not modelled; it is the
  parameter `isEmail`.
 */
module Validation {

  import opened Wrappers

  /** The longest name and password the schemas accept. */
  const MaxLength: nat := 30

  /** The body of a signup form post; "" stands for a field that is missing or empty. */
  datatype SignupForm = SignupForm(name: string, email: string, password: string)

  /** The body of a login form post. */
  datatype LoginForm = LoginForm(email: string, password: string)

  /** The rules of the schemas: name alphanumeric, name at most 30 long, email well formed, password at most 30 long. */
  datatype Rule = NameAlphanum | NameMax | EmailFormat | PasswordMax

  /** The error line a form is re-rendered with: one of the handlers' own texts, or Joi's message for the rule that failed. */
  datatype Message = Literal(text: string) | Invalid(rule: Rule)

  const NameEmpty: Message := Literal("Name can not be empty")
  const EmailEmpty: Message := Literal("Email can not be empty")
  const PasswordEmpty: Message := Literal("Password can not be empty")

  /** Joi's `alphanum()` accepts ASCII letters and digits only. */
  predicate AlphanumChar(c: char)
  {
    'a' <= c <= 'z' || 'A' <= c <= 'Z' || '0' <= c <= '9'
  }

  predicate Alphanum(s: string)
  {
    forall i | 0 <= i < |s| :: AlphanumChar(s[i])
  }

  /** The order in which Joi tries the rules: keys as the schema lists them, each key's rules as they are chained. */
  function Rank(rule: Rule): nat
  {
    match rule
    case NameAlphanum => 0
    case NameMax => 1
    case EmailFormat => 2
    case PasswordMax => 3
  }

  /** The signup form breaks `rule`. */
  predicate SignupBreaks(form: SignupForm, isEmail: string -> bool, rule: Rule)
  {
    match rule
    case NameAlphanum => !Alphanum(form.name)
    case NameMax => |form.name| > MaxLength
    case EmailFormat => !isEmail(form.email)
    case PasswordMax => |form.password| > MaxLength
  }

  /** The signup schema as a predicate. */
  predicate SignupSchema(form: SignupForm, isEmail: string -> bool)
  {
    Alphanum(form.name) && |form.name| <= MaxLength && isEmail(form.email) && |form.password| <= MaxLength
  }

  /** The login form breaks `rule`; the login schema has no name key, so the name rules never fail. */
  predicate LoginBreaks(form: LoginForm, isEmail: string -> bool, rule: Rule)
  {
    match rule
    case NameAlphanum => false
    case NameMax => false
    case EmailFormat => !isEmail(form.email)
    case PasswordMax => |form.password| > MaxLength
  }

  /** The login schema as a predicate. */
  predicate LoginSchema(form: LoginForm, isEmail: string -> bool)
  {
    isEmail(form.email) && |form.password| <= MaxLength
  }

  /** `schema.validate(body).error` for the signup schema: the first rule, in Joi's order, that the form breaks. */
  function SignupSchemaError(form: SignupForm, isEmail: string -> bool): (r: Option<Rule>)
    ensures r.None? <==> SignupSchema(form, isEmail)
    ensures r.Some? ==> SignupBreaks(form, isEmail, r.value)
    ensures r.Some? ==> forall rule | Rank(rule) < Rank(r.value) :: !SignupBreaks(form, isEmail, rule)
  {
    if !Alphanum(form.name) then Some(NameAlphanum)
    else if |form.name| > MaxLength then Some(NameMax)
    else if !isEmail(form.email) then Some(EmailFormat)
    else if |form.password| > MaxLength then Some(PasswordMax)
    else None
  }

  /** `schema.validate(body).error` for the login schema. */
  function LoginSchemaError(form: LoginForm, isEmail: string -> bool): (r: Option<Rule>)
    ensures r.None? <==> LoginSchema(form, isEmail)
    ensures r.Some? ==> LoginBreaks(form, isEmail, r.value)
    ensures r.Some? ==> forall rule | Rank(rule) < Rank(r.value) :: !LoginBreaks(form, isEmail, rule)
  {
    if !isEmail(form.email) then Some(EmailFormat)
    else if |form.password| > MaxLength then Some(PasswordMax)
    else None
  }

  /**
    Everything the signup handler checks before the lookup. The first empty
    field, in the order name, email, password, gives its own message; only
    when none is empty does the schema speak.
   */
  function SignupCheck(form: SignupForm, isEmail: string -> bool): (r: Option<Message>)
    ensures r.None? <==> form.name != "" && form.email != "" && form.password != "" && SignupSchema(form, isEmail)
    ensures form.name == "" ==> r == Some(NameEmpty)
    ensures form.name != "" && form.email == "" ==> r == Some(EmailEmpty)
    ensures form.name != "" && form.email != "" && form.password == "" ==> r == Some(PasswordEmpty)
    ensures form.name != "" && form.email != "" && form.password != "" && r.Some? ==>
              r.value.Invalid? && SignupSchemaError(form, isEmail) == Some(r.value.rule)
  {
    if form.name == "" then Some(NameEmpty)
    else if form.email == "" then Some(EmailEmpty)
    else if form.password == "" then Some(PasswordEmpty)
    else match SignupSchemaError(form, isEmail)
      case Some(rule) => Some(Invalid(rule))
      case None => None
  }

  /** Everything the login handler checks before the lookup: email empty, password empty, then the schema. */
  function LoginCheck(form: LoginForm, isEmail: string -> bool): (r: Option<Message>)
    ensures r.None? <==> form.email != "" && form.password != "" && LoginSchema(form, isEmail)
    ensures form.email == "" ==> r == Some(EmailEmpty)
    ensures form.email != "" && form.password == "" ==> r == Some(PasswordEmpty)
    ensures form.email != "" && form.password != "" && r.Some? ==>
              r.value.Invalid? && LoginSchemaError(form, isEmail) == Some(r.value.rule)
  {
    if form.email == "" then Some(EmailEmpty)
    else if form.password == "" then Some(PasswordEmpty)
    else match LoginSchemaError(form, isEmail)
      case Some(rule) => Some(Invalid(rule))
      case None => None
  }

  /** A form that passes the signup checks passes the login checks with the same email and password. */
  lemma SignupValidIsLoginValid(form: SignupForm, isEmail: string -> bool)
    requires SignupCheck(form, isEmail).None?
    ensures LoginCheck(LoginForm(form.email, form.password), isEmail).None?
  {
  }
}
