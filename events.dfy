/** The parse events a rule reports to its handler (production start, finish
    and cancel, token, error).  Positions are indices into the input. */
module Events {
  import opened Wrappers

  /** The kind a token event carries.  `RuleKind(rule)` is the kind of a token
      rule of the grammar (a token rule or an identifier pattern), identified
      abstractly by a number. */
  datatype TokenKind =
    | RuleKind(rule: nat)
    | IdentifierKind   // lexy::identifier_token_kind
    | ErrorKind        // lexy::error_token_kind

  /** The tag of an error event: the default `unknown_symbol`, or a user tag
      given with `.error<Tag>`. */
  datatype ErrorTag = UnknownSymbol | UserTag(tag: nat)

  /** `type_or<Tag, unknown_symbol>`: the user tag if there is one. */
  function TagOr(tag: Option<nat>): (r: ErrorTag)
    ensures tag.None? <==> r == UnknownSymbol
    ensures tag.Some? ==> r == UserTag(tag.value)
  {
    match tag
    case None => UnknownSymbol
    case Some(t) => UserTag(t)
  }

  datatype Event =
    | ProductionStart(prod: nat, pos: nat)
    | ProductionFinish(prod: nat, pos: nat)
    | ProductionCancel(prod: nat, pos: nat)
    | TokenEvent(kind: TokenKind, begin: nat, end: nat)
    | ErrorEvent(errTag: ErrorTag, begin: nat, end: nat)
    | OtherEvent(id: nat)
}
