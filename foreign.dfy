/**
 * The third-party code the core calls, as opaque functions: email
 * normalisation, password hashing, schema validation, JWT signing and
 * verification, and duration parsing. Configuration values are plain data.
 */
module Foreign {
  import opened Wrappers
  import opened Entities

  /** A field value of a document handed to the validator. */
  datatype Value = Str(s: string) | Flag(b: bool) | Null | Undefined

  type Document = map<string, Value>

  /** A validation rule: a pipe-separated string or a list of rule names. */
  datatype Rule = Pipe(text: string) | Items(items: seq<string>)

  type Rules = map<string, Rule>

  /** The validator's error report: field name to messages, in field order. */
  type ErrorBag = seq<(string, seq<string>)>

  datatype Libraries = Libraries(
    /** `validator.normalizeEmail`; the empty string stands for its `false`. */
    normalizeEmail: string -> string,
    hashPassword: string -> string,
    /** Does the plaintext (first) match the hash (second)? */
    comparePassword: (string, string) -> bool,
    /** The validator's report; the document passes when it is empty. */
    validate: (Document, Rules) -> ErrorBag,
    sign: TokenClaims -> string,
    /** The claims of a token with a valid signature, or `None`. */
    verify: string -> Option<TokenClaims>,
    /** `ms`: a duration text to milliseconds. */
    ms: string -> nat)

  /** The environment configuration the core reads. */
  datatype Config = Config(
    env: string,
    domain: Option<string>,
    cookieSsl: Option<string>,
    cookieSameSite: Option<string>,
    jwtExpiresIn: Option<string>,
    jwtRefreshExpiresIn: Option<string>)
}
