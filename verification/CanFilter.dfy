/** The receive path of the CAN interface: a halving search for the PDU of a received CAN id. */
module CanFilter {
  import opened Bytes

  type CanId = n: nat | n < 0x1_0000_0000

  datatype Mode = Offline | TxOffline | TxOfflineActive | Online

  // CanIf_RxLPduConfigType; `indication` says whether user_RxIndication is set.
  datatype RxPdu = RxPdu(id: CanId, controller: nat, indication: bool, upperPduId: nat)

  // CanIf_HrHConfigType: one PDU without filtering (arrayLen zero), or the PDUs to search.
  datatype Receiver = Unfiltered(pdu: nat) | Filtered(pdus: seq<nat>)

  datatype Found = Nothing | Pdu(index: nat)

  // The ids of the PDUs of a receiver, in the order of its array.
  function IdsOf(pdus: seq<nat>, rx: seq<RxPdu>): (ids: seq<CanId>)
    requires forall i | 0 <= i < |pdus| :: pdus[i] < |rx|
    ensures |ids| == |pdus| && forall i :: 0 <= i < |ids| ==> ids[i] == rx[pdus[i]].id
  {
    if pdus == [] then [] else [rx[pdus[0]].id] + IdsOf(pdus[1..], rx)
  }

  // The first position that holds an id, one after the other.
  function LinearScan(ids: seq<CanId>, id: CanId): Found {
    if ids == [] then Nothing
    else if ids[0] == id then Pdu(0)
    else
      match LinearScan(ids[1..], id)
      case Nothing => Nothing
      case Pdu(i) => Pdu(i + 1)
  }

  ghost predicate Descending(ids: seq<CanId>) {
    forall i, j :: 0 <= i < j < |ids| ==> ids[i] > ids[j]
  }

  lemma {:induction false} ScanSays(ids: seq<CanId>, id: CanId)
    ensures match LinearScan(ids, id)
            case Nothing => id !in ids
            case Pdu(k) => k < |ids| && ids[k] == id && id !in ids[..k]
  {
    if ids != [] && ids[0] != id {
      ScanSays(ids[1..], id);
      match LinearScan(ids[1..], id) {
        case Nothing => assert ids == [ids[0]] + ids[1..];
        case Pdu(k) => assert ids[..k + 1] == [ids[0]] + ids[1..][..k];
      }
    }
  }

  // In ids in descending order the one looked for can only be the last that is not below it.
  lemma LastNotBelow(ids: seq<CanId>, id: CanId, k: nat)
    requires Descending(ids) && k < |ids|
    requires (k > 0 ==> ids[k] >= id) && (k + 1 < |ids| ==> ids[k + 1] < id)
    ensures LinearScan(ids, id) == if ids[k] == id then Pdu(k) else Nothing
  {
    ScanSays(ids, id);
    forall i | 0 <= i < |ids| && i != k ensures ids[i] != id {
      assert if i < k then ids[i] > ids[k] else i == k + 1 || ids[k + 1] > ids[i];
    }
  }

  // ----- the receive path

  // A call of user_RxIndication.
  datatype Indication = Indication(upperPduId: nat, data: seq<Byte>)

  // What a frame leads to: RxLPduReceived for the PDU of the receiver or the one its search finds.
  function Handle(pdu: RxPdu, modes: seq<Mode>, data: seq<Byte>): seq<Indication>
    requires pdu.controller < |modes|
  {
    if modes[pdu.controller] == Offline || !pdu.indication then [] else [Indication(pdu.upperPduId, data)]
  }

  predicate ReceiverOk(r: Receiver, rx: seq<RxPdu>) {
    match r
    case Unfiltered(pdu) => pdu < |rx|
    case Filtered(pdus) => pdus != [] && forall i | 0 <= i < |pdus| :: pdus[i] < |rx|
  }

  // The configuration rule: the PDUs of a receiver stand in strictly descending order of their ids.
  ghost predicate Ordered(r: Receiver, rx: seq<RxPdu>) {
    ReceiverOk(r, rx) && (r.Filtered? ==> Descending(IdsOf(r.pdus, rx)))
  }

  // The frame goes to the one PDU with its id, if there is one.
  function Received(r: Receiver, rx: seq<RxPdu>, modes: seq<Mode>, id: CanId, data: seq<Byte>): seq<Indication>
    requires ReceiverOk(r, rx) && forall i | 0 <= i < |rx| :: rx[i].controller < |modes|
  {
    match r
    case Unfiltered(pdu) => Handle(rx[pdu], modes, data)
    case Filtered(pdus) =>
      var found := LinearScan(IdsOf(pdus, rx), id);
      ScanSays(IdsOf(pdus, rx), id);
      if found.Nothing? then [] else Handle(rx[pdus[found.index]], modes, data)
  }

  // What a frame for this PDU leads to: nothing when its controller is offline or nobody asked for it.
  predicate Delivered(pdu: RxPdu, modes: seq<Mode>)
    requires pdu.controller < |modes|
  {
    modes[pdu.controller] in {TxOffline, TxOfflineActive, Online} && pdu.indication
  }

  // Of an ordered receiver: a frame for one of its PDUs reaches that PDU with its data or is discarded, exactly as the
  // PDU's controller and configuration say, and a frame for none of them reaches nobody.
  lemma ReceivedExactly(r: Receiver, rx: seq<RxPdu>, modes: seq<Mode>, id: CanId, data: seq<Byte>)
    requires Ordered(r, rx) && forall i | 0 <= i < |rx| :: rx[i].controller < |modes|
    ensures var result := Received(r, rx, modes, id, data);
            match r
            case Unfiltered(p) =>
              result == if Delivered(rx[p], modes) then [Indication(rx[p].upperPduId, data)] else []
            case Filtered(pdus) =>
              && (forall p :: p in pdus && rx[p].id == id ==>
                    result == if Delivered(rx[p], modes) then [Indication(rx[p].upperPduId, data)] else [])
              && ((forall p :: p in pdus ==> rx[p].id != id) ==> result == [])
  {
    if r.Filtered? {
      var pdus, ids := r.pdus, IdsOf(r.pdus, rx);
      ScanSays(ids, id);
      if LinearScan(ids, id).Pdu? {
        var k := LinearScan(ids, id).index;
        assert pdus[k] in pdus && rx[pdus[k]].id == id;
        forall p | p in pdus && rx[p].id == id ensures p == pdus[k] {
          var i :| 0 <= i < |pdus| && pdus[i] == p;
          assert ids[i] == id == ids[k];
        }
      } else {
        forall p | p in pdus ensures rx[p].id != id {
          var i :| 0 <= i < |pdus| && pdus[i] == p;
          assert ids[i] in ids;
        }
      }
    }
  }

  // The checks of CAN id and length, which are compiled in with development error detection only.
  predicate Acceptable(id: CanId, data: seq<Byte>) {
    (0x8000_0000 <= id < 0xA000_0000 || id < 0x800) && |data| <= 8
  }

  class CanIf {
    const rx: seq<RxPdu>                    // RxLpduCfg
    const receivers: seq<seq<Receiver>>     // canIfHrhCfg, by controller and hardware object
    const detectsErrors: bool               // CANIF_DEV_ERROR_DETECT
    var modes: seq<Mode>                    // pduMode of controllerData
    var indications: seq<Indication>

    ghost predicate Valid()
      reads this
    {
      && (forall i | 0 <= i < |rx| :: rx[i].controller < |modes|)
      && (forall c, h | 0 <= c < |receivers| && 0 <= h < |receivers[c]| :: Ordered(receivers[c][h], rx))
    }

    constructor (rx: seq<RxPdu>, receivers: seq<seq<Receiver>>, detectsErrors: bool, controllers: nat)
      requires forall i | 0 <= i < |rx| :: rx[i].controller < controllers
      requires forall c, h | 0 <= c < |receivers| && 0 <= h < |receivers[c]| :: Ordered(receivers[c][h], rx)
      ensures Valid() && indications == [] && modes == seq(controllers, _ => Offline)
      ensures this.rx == rx && this.receivers == receivers && this.detectsErrors == detectsErrors
    {
      this.rx, this.receivers, this.detectsErrors := rx, receivers, detectsErrors;
      modes, indications := seq(controllers, _ => Offline), [];
    }

    // RxLPduReceived
    method LPduReceived(pdu: nat, data: seq<Byte>)
      requires Valid() && pdu < |rx|
      modifies this`indications
      ensures Valid() && indications == old(indications) + Handle(rx[pdu], modes, data)
    {
      if modes[rx[pdu].controller] == Offline {
        return;
      }
      if rx[pdu].indication {
        indications := indications + [Indication(rx[pdu].upperPduId, data)];
      }
    }

    // The search loop: a window of the array that is halved until one PDU is left. In any order it finds nothing but
    // a PDU with the id, in descending order it finds it exactly when a search one after the other does.
    method FindPdu(pdus: seq<nat>, id: CanId) returns (found: Found)
      requires pdus != [] && forall i | 0 <= i < |pdus| :: pdus[i] < |rx|
      ensures found.Pdu? ==> found.index < |pdus| && rx[pdus[found.index]].id == id
      ensures Descending(IdsOf(pdus, rx)) ==> found == LinearScan(IdsOf(pdus, rx), id)
    {
      ghost var ids := IdsOf(pdus, rx);
      var first: nat, count: nat := 0, |pdus|;
      while count > 1
        invariant 0 < count && first + count <= |pdus|
        invariant first > 0 ==> ids[first] >= id
        invariant first + count < |pdus| ==> ids[first + count] < id
        decreases count
      {
        var half := count / 2;
        assert count % 2 == count - half - half && 0 < half < count;
        assert ids[first + half] == rx[pdus[first + half]].id;
        if rx[pdus[first + half]].id >= id {
          first := first + half;
          count := half + count % 2;
        } else {
          count := half;
        }
      }
      if Descending(ids) {
        LastNotBelow(ids, id, first);
      }
      found := if rx[pdus[first]].id == id then Pdu(first) else Nothing;
    }

    // CanIf_Internal_RxIndication
    method RxIndication(controller: nat, hoh: nat, id: CanId, data: seq<Byte>)
      requires Valid() && controller < |receivers| && (detectsErrors || hoh < |receivers[controller]|)
      modifies this`indications
      ensures Valid()
      ensures detectsErrors && (hoh >= |receivers[controller]| || !Acceptable(id, data)) ==>
        indications == old(indications)
      ensures hoh < |receivers[controller]| && (!detectsErrors || Acceptable(id, data)) ==>
        indications == old(indications) + Received(receivers[controller][hoh], rx, modes, id, data)
    {
      if detectsErrors && hoh >= |receivers[controller]| {
        return;
      }
      if detectsErrors && !Acceptable(id, data) {
        return;
      }
      match receivers[controller][hoh]
      case Unfiltered(pdu) => LPduReceived(pdu, data);
      case Filtered(pdus) =>
        var found := FindPdu(pdus, id);
        ScanSays(IdsOf(pdus, rx), id);
        if found.Pdu? {
          LPduReceived(pdus[found.index], data);
        }
    }
  }
}
