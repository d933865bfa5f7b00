/**
  The transfer catalog: `ajouterTransferts` keeps the transfers between two
  stations that are still present, with a duration of at least one second,
  and records the origin stations.
 */
module Transferts {
  import opened Lecture
  import opened Modele

  /** `m_transferts` and `m_stationsDeTransfert`. */
  datatype EtatTransferts = EtatTransferts(transferts: seq<Transfert>, stationsDeTransfert: set<u32>)

  /** The duration stored for a raw minimum transfer time: 0 becomes 1, any other value is kept. */
  function DureeMinimale(d: u32): (r: u32)
    ensures d == 0 ==> r == 1
    ensures d != 0 ==> r == d
  {
    if d == 0 then 1 else d
  }

  /**
    One row of the transfers file: origin stop id in field 0, destination in 1,
    minimum time in 3, each read by `stoi` and converted to `unsigned int`.
    The row throws when it has fewer than four fields or one of those three is
    not a number; it is kept iff both stations are present.
   */
  function LireTransfert(stations: set<u32>, rangee: Rangee): (r: Lu<Transfert>)
    ensures r.Retenue? ==> r.valeur.origine in stations && r.valeur.destination in stations && 1 <= r.valeur.duree
  {
    if |rangee| < 4 then Malformee
    else
      var origine := Stoi(Champ(rangee, 0));
      var destination := Stoi(Champ(rangee, 1));
      var duree := Stoi(Champ(rangee, 3));
      if origine.None? || destination.None? || duree.None? then Malformee
      else if EnNonSigne(origine.value) in stations && EnNonSigne(destination.value) in stations then
        Retenue(Transfert(EnNonSigne(origine.value), EnNonSigne(destination.value), DureeMinimale(EnNonSigne(duree.value))))
      else Ignoree
  }

  /**
    What `LireTransfert` decides: a row throws iff it is short or one of its
    three numeric fields is not a number; a row that parses is kept iff both
    its stations are present, with the duration its third number gives.
   */
  lemma LireTransfertSpec(stations: set<u32>, rangee: Rangee)
    ensures LireTransfert(stations, rangee).Malformee? <==>
      |rangee| < 4 || Stoi(Champ(rangee, 0)).None? || Stoi(Champ(rangee, 1)).None? || Stoi(Champ(rangee, 3)).None?
    ensures LireTransfert(stations, rangee).Ignoree? <==>
      && 4 <= |rangee| && Stoi(Champ(rangee, 0)).Some? && Stoi(Champ(rangee, 1)).Some? && Stoi(Champ(rangee, 3)).Some?
      && !(EnNonSigne(Stoi(Champ(rangee, 0)).value) in stations && EnNonSigne(Stoi(Champ(rangee, 1)).value) in stations)
    ensures LireTransfert(stations, rangee).Retenue? ==>
      && 4 <= |rangee| && Stoi(Champ(rangee, 0)).Some? && Stoi(Champ(rangee, 1)).Some? && Stoi(Champ(rangee, 3)).Some?
      && LireTransfert(stations, rangee).valeur.origine == EnNonSigne(Stoi(Champ(rangee, 0)).value)
      && LireTransfert(stations, rangee).valeur.destination == EnNonSigne(Stoi(Champ(rangee, 1)).value)
      && LireTransfert(stations, rangee).valeur.duree == DureeMinimale(EnNonSigne(Stoi(Champ(rangee, 3)).value))
  {
  }

  /** The read loop of `ajouterTransferts` on the rows after the header: stops at the first malformed row. */
  function ChargerTransferts(stations: set<u32>, e: EtatTransferts, rangees: seq<Rangee>): Bilan<EtatTransferts>
    decreases |rangees|
  {
    if |rangees| == 0 then Bilan(e, Reussi)
    else match LireTransfert(stations, rangees[0])
      case Malformee => Bilan(e, Echec(DonneeInvalide))
      case Ignoree => ChargerTransferts(stations, e, rangees[1..])
      case Retenue(t) =>
        ChargerTransferts(stations, EtatTransferts(e.transferts + [t], e.stationsDeTransfert + {t.origine}), rangees[1..])
  }

  /** The fold from row `i` on, unfolded once. */
  lemma ChargerTransfertsPas(stations: set<u32>, e: EtatTransferts, rangees: seq<Rangee>, i: nat)
    requires i < |rangees|
    ensures ChargerTransferts(stations, e, rangees[i..])
            == match LireTransfert(stations, rangees[i])
               case Malformee => Bilan(e, Echec(DonneeInvalide))
               case Ignoree => ChargerTransferts(stations, e, rangees[i + 1..])
               case Retenue(t) => ChargerTransferts(stations, EtatTransferts(e.transferts + [t], e.stationsDeTransfert + {t.origine}), rangees[i + 1..])
  {
    assert rangees[i..][0] == rangees[i] && rangees[i..][1..] == rangees[i + 1..];
  }

  /** The transfers the rows keep, in row order, when no row is malformed. */
  function TransfertsRetenus(stations: set<u32>, rangees: seq<Rangee>): (r: Option<seq<Transfert>>)
    ensures r.Some? ==> forall t :: t in r.value ==> t.origine in stations && t.destination in stations && 1 <= t.duree
    decreases |rangees|
  {
    if |rangees| == 0 then Some([])
    else match (LireTransfert(stations, rangees[0]), TransfertsRetenus(stations, rangees[1..]))
      case (Malformee, _) => None
      case (_, None) => None
      case (Ignoree, Some(ts)) => Some(ts)
      case (Retenue(t), Some(ts)) => Some([t] + ts)
  }

  function Origines(ts: seq<Transfert>): set<u32>
  {
    set t | t in ts :: t.origine
  }

  /** The kept transfers are defined iff no row throws. */
  lemma {:induction false} TransfertsRetenusToutes(stations: set<u32>, rangees: seq<Rangee>)
    ensures TransfertsRetenus(stations, rangees).Some? <==> forall k :: 0 <= k < |rangees| ==> !LireTransfert(stations, rangees[k]).Malformee?
    decreases |rangees|
  {
    if |rangees| > 0 {
      TransfertsRetenusToutes(stations, rangees[1..]);
      assert forall k :: 0 < k < |rangees| ==> rangees[1..][k - 1] == rangees[k];
    }
  }

  /** The transfers file loads iff no row is malformed; otherwise it throws. */
  lemma {:induction false} ChargerTransfertsIssue(stations: set<u32>, e: EtatTransferts, rangees: seq<Rangee>)
    ensures ChargerTransferts(stations, e, rangees).issue
            == if TransfertsRetenus(stations, rangees).Some? then Reussi else Echec(DonneeInvalide)
    decreases |rangees|
  {
    if |rangees| > 0 {
      match LireTransfert(stations, rangees[0])
      case Malformee =>
      case Ignoree => ChargerTransfertsIssue(stations, e, rangees[1..]);
      case Retenue(t) =>
        ChargerTransfertsIssue(stations, EtatTransferts(e.transferts + [t], e.stationsDeTransfert + {t.origine}), rangees[1..]);
    }
  }

  /**
    On rows that parse, the kept transfers are appended in row order and only
    their origins join `m_stationsDeTransfert`.
   */
  lemma {:induction false} ChargerTransfertsSpec(stations: set<u32>, e: EtatTransferts, rangees: seq<Rangee>, ts: seq<Transfert>)
    requires TransfertsRetenus(stations, rangees) == Some(ts)
    ensures ChargerTransferts(stations, e, rangees).etat == EtatTransferts(e.transferts + ts, e.stationsDeTransfert + Origines(ts))
    decreases |rangees|
  {
    if |rangees| > 0 {
      var reste := TransfertsRetenus(stations, rangees[1..]).value;
      match LireTransfert(stations, rangees[0])
      case Ignoree => ChargerTransfertsSpec(stations, e, rangees[1..], reste);
      case Retenue(t) =>
        ChargerTransfertsSpec(stations, EtatTransferts(e.transferts + [t], e.stationsDeTransfert + {t.origine}), rangees[1..], reste);
        assert ts == [t] + reste;
        assert Origines(ts) == {t.origine} + Origines(reste);
    }
  }

  /** The transfers kept by rows that parse, split after the first row. */
  lemma TransfertsRetenusTete(stations: set<u32>, rangees: seq<Rangee>, ts: seq<Transfert>)
    requires TransfertsRetenus(stations, rangees) == Some(ts)
    requires 0 < |rangees|
    ensures !LireTransfert(stations, rangees[0]).Malformee?
    ensures TransfertsRetenus(stations, rangees[1..]).Some?
    ensures ts == if LireTransfert(stations, rangees[0]).Retenue?
                  then [LireTransfert(stations, rangees[0]).valeur] + TransfertsRetenus(stations, rangees[1..]).value
                  else TransfertsRetenus(stations, rangees[1..]).value
  {
  }

  /** A kept transfer comes from a row `LireTransfert` keeps. */
  lemma {:induction false} TransfertRetenuProvenance(stations: set<u32>, rangees: seq<Rangee>, ts: seq<Transfert>, t: Transfert)
    requires TransfertsRetenus(stations, rangees) == Some(ts)
    requires t in ts
    ensures exists k :: 0 <= k < |rangees| && LireTransfert(stations, rangees[k]) == Retenue(t)
    decreases |rangees|
  {
    TransfertsRetenusTete(stations, rangees, ts);
    if LireTransfert(stations, rangees[0]) != Retenue(t) {
      TransfertRetenuProvenance(stations, rangees[1..], TransfertsRetenus(stations, rangees[1..]).value, t);
      var k :| 0 <= k < |rangees[1..]| && LireTransfert(stations, rangees[1..][k]) == Retenue(t);
      assert rangees[1..][k] == rangees[k + 1];
    }
  }

  /** Every row `LireTransfert` keeps yields a kept transfer. */
  lemma {:induction false} TransfertRetenuPresent(stations: set<u32>, rangees: seq<Rangee>, ts: seq<Transfert>, k: nat)
    requires TransfertsRetenus(stations, rangees) == Some(ts)
    requires k < |rangees| && LireTransfert(stations, rangees[k]).Retenue?
    ensures LireTransfert(stations, rangees[k]).valeur in ts
    decreases k
  {
    TransfertsRetenusTete(stations, rangees, ts);
    if k == 0 {
      assert ts[0] == LireTransfert(stations, rangees[0]).valeur;
    } else {
      assert rangees[1..][k - 1] == rangees[k];
      TransfertRetenuPresent(stations, rangees[1..], TransfertsRetenus(stations, rangees[1..]).value, k - 1);
    }
  }

  /**
    The transfers kept are exactly those of the rows whose two stations are
    present: every row kept by `LireTransfert` is in the list, and nothing else.
   */
  lemma TransfertsRetenusContenu(stations: set<u32>, rangees: seq<Rangee>, ts: seq<Transfert>)
    requires TransfertsRetenus(stations, rangees) == Some(ts)
    ensures forall t :: t in ts <==> exists k :: 0 <= k < |rangees| && LireTransfert(stations, rangees[k]) == Retenue(t)
  {
    forall t ensures t in ts <==> exists k :: 0 <= k < |rangees| && LireTransfert(stations, rangees[k]) == Retenue(t) {
      if t in ts {
        TransfertRetenuProvenance(stations, rangees, ts, t);
      }
      if exists k :: 0 <= k < |rangees| && LireTransfert(stations, rangees[k]) == Retenue(t) {
        var k :| 0 <= k < |rangees| && LireTransfert(stations, rangees[k]) == Retenue(t);
        TransfertRetenuPresent(stations, rangees, ts, k);
      }
    }
  }

  /**
    A malformed row stops the load: the transfers of the rows before it stay
    stored and nothing after it is read.
   */
  lemma {:induction false} ChargerTransfertsEchec(stations: set<u32>, e: EtatTransferts, rangees: seq<Rangee>, k: nat)
    requires k < |rangees|
    requires TransfertsRetenus(stations, rangees[..k]).Some?
    requires LireTransfert(stations, rangees[k]).Malformee?
    ensures ChargerTransferts(stations, e, rangees)
            == Bilan(ChargerTransferts(stations, e, rangees[..k]).etat, Echec(DonneeInvalide))
    decreases k
  {
    if k > 0 {
      assert rangees[..k][0] == rangees[0];
      assert rangees[..k][1..] == rangees[1..][..k - 1];
      match LireTransfert(stations, rangees[0])
      case Ignoree => ChargerTransfertsEchec(stations, e, rangees[1..], k - 1);
      case Retenue(t) =>
        ChargerTransfertsEchec(stations, EtatTransferts(e.transferts + [t], e.stationsDeTransfert + {t.origine}), rangees[1..], k - 1);
    }
  }
}
