/** The records the billing daemon passes around: call legs, the counters a leg
    charges, and the CDRs the legs come from. Only the fields that drive the
    bookkeeping are kept. Money is `real`, times are seconds since the epoch. */
module Models {

  datatype Option<+T> = None | Some(value: T)

  ghost function SomeOf<T>(s: set<T>): (x: T)
    requires s != {}
    ensures x in s
  {
    var x :| x in s;
    x
  }

  function Max(a: int, b: int): int {
    if a < b then b else a
  }

  function Min(a: int, b: int): int {
    if a < b then a else b
  }

  /** A call detail record. `technical` is the verdict of the mega-trunk state:
      such a record produces no legs. */
  datatype Cdr = Cdr(id: int, connectTime: int, technical: bool)

  /** One leg of a call. */
  datatype Call = Call(
    id: int,
    peerId: int,
    cdrId: int,
    orig: bool,
    connectTime: int,
    accountId: int,
    destinationId: int,
    numberServiceId: int,
    billedTime: int,
    rate: real,
    cost: real,
    servicePackageId: int,
    servicePackageStatsId: int,
    packageTime: int,
    packageCredit: real,
    trunkSettingsStatsId: int,
    statsNnpPackageMinuteId: int)
  {
    predicate IsInternational() {
      destinationId == 2
    }
  }

  /** What the account of a leg contributes: when its balance was last invoiced. */
  datatype Client = Client(id: int, amountDate: int)

  /** A calculated leg together with what the calculation found for it. */
  datatype CallInfo = CallInfo(
    call: Call,
    account: Option<Client>,
    prepaid: bool,      // servicePackagePrepaid was set
    utcDay: int,
    utcMonth: int)

  /** The four managers of counters that are keyed by a generated id. */
  datatype Kind = Freemin | Package | TrunkSettings | NnpMinute

  /** One value for each of the four managers. */
  datatype PerKind<T> = PerKind(freemin: T, package: T, trunkSettings: T, nnpMinute: T) {
    function At(k: Kind): T {
      match k
      case Freemin => freemin
      case Package => package
      case TrunkSettings => trunkSettings
      case NnpMinute => nnpMinute
    }

    function With(k: Kind, t: T): (r: PerKind<T>)
      ensures forall j: Kind :: r.At(j) == if j == k then t else At(j)
    {
      match k
      case Freemin => this.(freemin := t)
      case Package => this.(package := t)
      case TrunkSettings => this.(trunkSettings := t)
      case NnpMinute => this.(nnpMinute := t)
    }
  }

  /** A counter record. `from`..`to` is the inclusive window it counts for;
      `paid` is the allowance in seconds (for free minutes, the allowance of the
      tariff the record was opened under, which the table does not store). */
  datatype Row = Row(
    id: int,
    owner: int,
    from: int,
    to: int,
    paid: int,
    usedSeconds: int,
    usedCredit: real,
    minCallId: int,
    maxCallId: int)
}
