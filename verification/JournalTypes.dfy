/** The inputs of the double-entry journal. Amounts are in agorot, absent fields are None. */
module JournalTypes {
  import opened Common

  datatype Error = NotFound | BadRequest | Forbidden | ServerError | DatabaseError

  datatype Account = Account(hasSection: bool, kind: string)

  datatype LineInput = LineInput(
    accountCode: string, debit: Option<real>, credit: Option<real>, amountBeforeVat: Option<real>,
    vatAmount: Option<real>, isEquipment: Option<bool>, taxPercent: Option<real>, vatPercent: Option<real>,
    amountForTax: Option<real>, subCategoryName: Option<string>)

  datatype EntryInput = EntryInput(
    owner: string, business: string, subCategory: Option<string>, counterAccountCode: Option<string>,
    counterPartyName: Option<string>, documentTotal: Option<real>, date: string, valueDate: Option<string>,
    vatDate: Option<string>, notes: Option<string>, vatReportingPeriod: Option<string>, referenceType: string,
    referenceId: Option<int>, description: Option<string>, lines: seq<LineInput>)

  function Or<T>(value: Option<T>, default: T): T {
    if value.Some? then value.value else default
  }

  function Debit(l: LineInput): real { Or(l.debit, 0.0) }

  function Credit(l: LineInput): real { Or(l.credit, 0.0) }

  function Debits(lines: seq<LineInput>): real {
    if lines == [] then 0.0 else Debits(lines[..|lines| - 1]) + Debit(lines[|lines| - 1])
  }

  function Credits(lines: seq<LineInput>): real {
    if lines == [] then 0.0 else Credits(lines[..|lines| - 1]) + Credit(lines[|lines| - 1])
  }
}
