/** Tokens passed from the YAML scanner to the YAML parser. */
module YamlTokens {
  import opened YamlEvents

  datatype TokenType =
    | StreamStartToken | StreamEndToken
    | VersionDirectiveToken | TagDirectiveToken
    | DocumentStartToken | DocumentEndToken
    | BlockSequenceStartToken | BlockMappingStartToken | BlockEndToken
    | FlowSequenceStartToken | FlowSequenceEndToken
    | FlowMappingStartToken | FlowMappingEndToken
    | BlockEntryToken | FlowEntryToken | KeyToken | ValueToken
    | AliasToken | AnchorToken | TagToken | ScalarToken

  datatype Token = Token(
    typ: TokenType,
    start: Mark,
    end: Mark,
    value: string,
    suffix: string,
    prefix: string,
    style: Style,
    major: int,
    minor: int)
}
