/**
 * The record on disk every surface shares: its shape, the list a write may
 * carry, and the revision check that guards it.
 */
module OrderRecord {

  type Code = string

  datatype Mode = Usage | Custom

  datatype Order = Order(mode: Mode, providers: seq<Code>, revision: nat)

  datatype Failure = InvalidInput | StaleRevision | Storage

  datatype Answer = Written(order: Order) | Refused(failure: Failure)

  const MAX_PROVIDERS := 64
  const MAX_CODE := 32
  /** The largest safe integer of the webviews that read the revision. */
  const MAX_REVISION := 0x1F_FFFF_FFFF_FFFF

  /** What a surface shows before it has read anything. */
  const USAGE := Order(Usage, [], 0)

  predicate ValidCode(code: Code) {
    && 1 <= |code| <= MAX_CODE
    && 'A' <= code[0] <= 'Z'
    && forall k :: 0 <= k < |code| ==> 'A' <= code[k] <= 'Z' || '0' <= code[k] <= '9' || code[k] == '_'
  }

  predicate ValidList(providers: seq<Code>) {
    && |providers| <= MAX_PROVIDERS
    && (forall i :: 0 <= i < |providers| ==> ValidCode(providers[i]))
    && (forall i, j :: 0 <= i < j < |providers| ==> providers[i] != providers[j])
  }

  /** What a surface accepts as a record; the mode and the entries are typed. */
  predicate ValidOrder(order: Order) {
    order.revision <= MAX_REVISION
  }

  /** A record the disk can hold: what a write left there, or, for none to trust, the empty usage record. */
  predicate OnDisk(order: Order) {
    ValidOrder(order) && ValidList(order.providers) && (order.revision == 0 ==> order == USAGE)
  }

  /** One write, made from `input.revision`; `stored` is whether the file could be replaced. */
  function Write(disk: Order, input: Order, stored: bool): Answer {
    if !ValidList(input.providers) then Refused(InvalidInput)
    else if input.revision != disk.revision then Refused(StaleRevision)
    else if disk.revision + 1 > MAX_REVISION then Refused(Storage)
    else if !stored then Refused(Storage)
    else Written(Order(input.mode, input.providers, disk.revision + 1))
  }

  /**
   * What the disk takes: a list of at most 64 codes, none twice, each an upper case
   * letter and up to 31 of those, digits or underscores, made from the revision the
   * disk stands at, short of the largest a webview can count to. It then holds what
   * was sent, one revision on. A bad list is refused before a stale one.
   */
  lemma TakesExactlyWhen(disk: Order, input: Order, stored: bool)
    ensures var codes := input.providers;
            var fits := && |codes| <= 64 && (forall i, j :: 0 <= i < j < |codes| ==> codes[i] != codes[j])
                        && forall i :: 0 <= i < |codes| ==>
                             && 1 <= |codes[i]| <= 32 && 'A' <= codes[i][0] <= 'Z'
                             && forall k :: 0 <= k < |codes[i]| ==>
                                  || 'A' <= codes[i][k] <= 'Z' || '0' <= codes[i][k] <= '9' || codes[i][k] == '_';
            Write(disk, input, stored)
            == if !fits then Refused(InvalidInput)
               else if input.revision != disk.revision then Refused(StaleRevision)
               else if !stored || disk.revision >= 9007199254740991 then Refused(Storage)
               else Written(Order(input.mode, codes, input.revision + 1))
  {
    assert (forall i :: 0 <= i < |input.providers| ==> ValidCode(input.providers[i]))
           <==> forall i :: 0 <= i < |input.providers| ==>
                  && 1 <= |input.providers[i]| <= 32 && 'A' <= input.providers[i][0] <= 'Z'
                  && forall k :: 0 <= k < |input.providers[i]| ==>
                       || 'A' <= input.providers[i][k] <= 'Z' || '0' <= input.providers[i][k] <= '9'
                       || input.providers[i][k] == '_';
  }
}
