/** The records the application stores: transactions and the family profile. */
module Types {
  import opened Calendar

  datatype TxType = Income | Expense

  /** The closed category enumeration, in declaration order. */
  datatype Category =
    | Vivienda | Transporte | Servicios | Alimentos | Transferencias
    | Diezmos | Salario | Negocio | OtrosIngresos | OtrosGastos

  /** The text each category is stored and shown as. */
  function CategoryName(c: Category): string {
    match c
    case Vivienda => "Vivienda"
    case Transporte => "Transporte"
    case Servicios => "Servicios"
    case Alimentos => "Alimentos"
    case Transferencias => "Transferencias"
    case Diezmos => "Diezmos"
    case Salario => "Salario"
    case Negocio => "Negocio"
    case OtrosIngresos => "Otros Ingresos"
    case OtrosGastos => "Otros Gastos"
  }

  /** One income or expense. `date` is the local reading of the stored
      timestamp; an absent `company` is the empty string. */
  datatype Transaction = Transaction(
    id: string,
    date: DateTime,
    amount: real,
    category: Category,
    description: string,
    kind: TxType,
    createdBy: string,
    company: string)

  datatype FamilyProfile = FamilyProfile(familyName: string, members: seq<string>, pin: string)

  /** Every transaction's date is a real local date and time. */
  predicate ValidDates(ts: seq<Transaction>) {
    forall i :: 0 <= i < |ts| ==> ValidDateTime(ts[i].date)
  }
}
