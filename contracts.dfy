/** The contract directory of `services/contractService.ts`: the plate to
    contract map built from the service's reply, and the lookup both row
    normalisers use. */
module ContractService {
  import opened Wrappers
  import opened Text
  import opened Types

  /** Normalised plate to contract name. */
  type Directory = map<string, string>

  /** The one message every failure of the service surfaces as. */
  const ConnectionError := "No se pudo conectar con el servicio de contratos."

  /** The `data` member of the decoded reply; an element of the array is
      `None` when it is `null` or `undefined`. */
  datatype DataField = Missing | NotArray | Entries(elements: seq<Option<ContractData>>)

  /** The decoded JSON body: `null`, or an object. */
  datatype Payload = Null | Object(data: DataField)

  /** What `fetch` delivers: no response at all (network failure), or a
      response with its `ok` flag and a body that is or is not JSON. */
  datatype Reply =
    | NetworkFailure
    | Http(ok: bool, body: Option<Payload>)

  // ---------------------------------------------------------------------
  // Building the directory

  /** `item.Placa && item.Contrato`: both present and non-empty. */
  predicate Usable(item: ContractData) {
    item.placa.Some? && item.placa.value != [] && item.contrato.Some? && item.contrato.value != []
  }

  /** The key an entry is stored under. */
  function KeyOf(item: ContractData): string
    requires Usable(item)
  {
    NormalizePlate(item.placa.value)
  }

  /** The directory after the `forEach` has visited `items` in order: usable
      entries are set under their normalised plate, a later entry
      overwriting an earlier one. */
  function DirectoryOf(items: seq<ContractData>): Directory {
    if items == [] then map[]
    else
      var d := DirectoryOf(items[..|items| - 1]);
      var last := items[|items| - 1];
      if Usable(last) then d[KeyOf(last) := last.contrato.value] else d
  }

  /** The entries of an array with no `null` element. */
  function Unwrapped(elements: seq<Option<ContractData>>): (items: seq<ContractData>)
    requires None !in elements
    ensures |items| == |elements|
    ensures forall i :: 0 <= i < |elements| ==> elements[i] == Some(items[i])
  {
    if elements == [] then []
    else
      var last := elements[|elements| - 1];
      assert last in elements;
      Unwrapped(elements[..|elements| - 1]) + [last.value]
  }

  /** `contractMap.set` inside the `forEach` (contractService.ts:17-22):
      `None` when the walk reaches a `null` element, whose `item.Placa`
      throws, otherwise the directory of all the entries. */
  method BuildContractMap(elements: seq<Option<ContractData>>) returns (r: Option<Directory>)
    ensures r.None? <==> None in elements
    ensures r.Some? ==> r.value == DirectoryOf(Unwrapped(elements))
  {
    var directory := map[];
    var i := 0;
    while i < |elements|
      invariant 0 <= i <= |elements|
      invariant None !in elements[..i]
      invariant directory == DirectoryOf(Unwrapped(elements[..i]))
    {
      match elements[i]
      case None =>
        assert elements[i] in elements;
        return None;
      case Some(item) =>
        DirectoryStep(elements, i);
        if item.placa.Some? && item.placa.value != [] && item.contrato.Some? && item.contrato.value != [] {
          directory := directory[NormalizePlate(item.placa.value) := item.contrato.value];
        }
        i := i + 1;
    }
    assert elements[..|elements|] == elements;
    r := Some(directory);
  }

  /** One more non-null element extends the directory as `DirectoryOf`
      says. */
  lemma DirectoryStep(elements: seq<Option<ContractData>>, i: nat)
    requires i < |elements| && None !in elements[..i] && elements[i].Some?
    ensures None !in elements[..i + 1]
    ensures var d := DirectoryOf(Unwrapped(elements[..i]));
            var item := elements[i].value;
            DirectoryOf(Unwrapped(elements[..i + 1]))
              == if Usable(item) then d[KeyOf(item) := item.contrato.value] else d
  {
    var front := elements[..i + 1];
    assert front == elements[..i] + [elements[i]];
    assert front[..i] == elements[..i];
    var items := Unwrapped(front);
    assert items[..i] == Unwrapped(elements[..i]);
  }

  // ---------------------------------------------------------------------
  // Properties of the directory

  /** Every usable entry leaves its key in the directory, and only those
      keys are there. */
  lemma {:induction false} DirectoryKeys(items: seq<ContractData>, i: int)
    requires 0 <= i < |items| && Usable(items[i])
    ensures KeyOf(items[i]) in DirectoryOf(items)
  {
    var init := items[..|items| - 1];
    if i < |items| - 1 {
      assert init[i] == items[i];
      DirectoryKeys(init, i);
    }
  }

  /** Only the keys of usable entries are in the directory. */
  lemma {:induction false} KeysFromEntries(items: seq<ContractData>, k: string)
    requires k in DirectoryOf(items)
    ensures exists i :: 0 <= i < |items| && Usable(items[i]) && KeyOf(items[i]) == k
  {
    var init := items[..|items| - 1];
    var last := items[|items| - 1];
    if !(Usable(last) && KeyOf(last) == k) {
      KeysFromEntries(init, k);
      var i :| 0 <= i < |init| && Usable(init[i]) && KeyOf(init[i]) == k;
      assert items[i] == init[i];
    }
  }

  /** Every stored key is already normalised: normalising it again gives it
      back. */
  lemma KeysAreNormalised(items: seq<ContractData>)
    ensures forall k :: k in DirectoryOf(items) ==> NormalizePlate(k) == k
  {
    forall k | k in DirectoryOf(items) ensures NormalizePlate(k) == k {
      KeysFromEntries(items, k);
      var i :| 0 <= i < |items| && Usable(items[i]) && KeyOf(items[i]) == k;
      NormalizePlateIdempotent(items[i].placa.value);
    }
  }

  /** The last usable entry for a key wins, and its contract is stored as
      sent, untrimmed. */
  lemma {:induction false} LastWriteWins(items: seq<ContractData>, i: int)
    requires 0 <= i < |items| && Usable(items[i])
    requires forall j :: i < j < |items| && Usable(items[j]) ==> KeyOf(items[j]) != KeyOf(items[i])
    ensures KeyOf(items[i]) in DirectoryOf(items)
    ensures DirectoryOf(items)[KeyOf(items[i])] == items[i].contrato.value
  {
    var init := items[..|items| - 1];
    if i < |items| - 1 {
      assert init[i] == items[i];
      assert forall j :: i < j < |init| ==> init[j] == items[j];
      LastWriteWins(init, i);
    }
  }

  /** An entry without a plate or without a contract, wherever it comes,
      leaves the directory as it would be without it. */
  lemma {:induction false} UnusableSkipped(before: seq<ContractData>, x: ContractData, after: seq<ContractData>)
    requires !Usable(x)
    ensures DirectoryOf(before + [x] + after) == DirectoryOf(before + after)
    decreases |after|
  {
    if after == [] {
      assert before + [x] + after == before + [x];
      assert (before + [x])[..|before|] == before;
      assert before + after == before;
    } else {
      var front := after[..|after| - 1];
      var all := before + [x] + after;
      var without := before + after;
      assert all[..|all| - 1] == before + [x] + front;
      assert without[..|without| - 1] == before + front;
      assert all[|all| - 1] == without[|without| - 1];
      UnusableSkipped(before, x, front);
    }
  }

  // ---------------------------------------------------------------------
  // The service reply

  /** The entries of a reply the service accepts: a successful response
      whose JSON body is an object with an array `data`. */
  function EntriesOf(reply: Reply): (r: Option<seq<Option<ContractData>>>)
    ensures r.Some? <==> reply.Http? && reply.ok && reply.body.Some?
                         && reply.body.value.Object? && reply.body.value.data.Entries?
  {
    match reply
    case NetworkFailure => None
    case Http(ok, body) =>
      if !ok then None
      else match body
        case None => None
        case Some(Null) => None
        case Some(Object(data)) =>
          if data.Entries? then Some(data.elements) else None
  }

  /** `fetchContracts()` (contractService.ts:5-29): the directory built from
      an accepted reply without `null` elements, otherwise the single
      generic error. */
  method FetchContracts(reply: Reply) returns (r: Result<Directory, string>)
    ensures r.Success? <==> EntriesOf(reply).Some? && None !in EntriesOf(reply).value
    ensures r.Success? ==> r.value == DirectoryOf(Unwrapped(EntriesOf(reply).value))
    ensures r.Failure? ==> r.error == ConnectionError
  {
    match EntriesOf(reply)
    case None =>
      r := Failure(ConnectionError);
    case Some(elements) =>
      var built := BuildContractMap(elements);
      match built
      case None =>
        r := Failure(ConnectionError);
      case Some(directory) =>
        r := Success(directory);
  }

  // ---------------------------------------------------------------------
  // Lookup

  /** `contractMap.get(placa) || 'No Asignado'`. */
  function Resolve(directory: Directory, placa: string): (contrato: string)
    ensures contrato != []
    ensures placa in directory && directory[placa] != [] ==> contrato == directory[placa]
    ensures placa !in directory || directory[placa] == [] ==> contrato == Unassigned
  {
    if placa in directory && directory[placa] != [] then directory[placa] else Unassigned
  }

  /** A plate the directory was built with resolves to the contract of the
      last entry that named it. */
  lemma ResolveBuilt(items: seq<ContractData>, i: int)
    requires 0 <= i < |items| && Usable(items[i])
    requires forall j :: i < j < |items| && Usable(items[j]) ==> KeyOf(items[j]) != KeyOf(items[i])
    ensures Resolve(DirectoryOf(items), KeyOf(items[i])) == items[i].contrato.value
  {
    LastWriteWins(items, i);
  }
}
