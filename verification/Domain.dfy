/** The values that requests, table rows and Meta share. */
module Domain {
  import opened Prelude

  /** A UUID, by its text. */
  type Uuid = string

  /** A non-negative decimal: coefficient * 10^exponent. */
  datatype Decimal = Decimal(coefficient: nat, exponent: int)

  datatype Rule = Rule(field: string, operator: string, value: string)

  /** What a tag is about, as the request states it and as row, Meta payload and response repeat it. */
  datatype Columns = Columns(name: string, eventType: string, category: string,
                             value: Option<Decimal>, currency: Option<string>, rule: Option<Rule>)

  /** `CustomConversionCreateInput`: the columns, with the pixel by its Meta id. */
  datatype MetaInput = MetaInput(pixelId: string, columns: Columns)
}
