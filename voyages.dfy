/** The trip catalog: `ajouterVoyagesDeLaDate` keeps the trips whose service is active. */
module Voyages {
  import opened Lecture
  import opened Modele
  import opened Tables

  /**
    One row of the trips file: route id in field 0, service id in 1, trip id
    in 2, headsign in 3. Only field 1 is read before the service is checked:
    a row whose service is not active is skipped whatever its other fields;
    a row whose service is active is kept as a trip with no stop-time, and
    throws when it has fewer than four fields or a route id that is not a
    number.
   */
  function LireVoyage(services: set<string>, rangee: Rangee): (r: Lu<Voyage>)
    ensures r.Malformee? <==> |rangee| < 2 || (Champ(rangee, 1) in services && (|rangee| < 4 || Stoi(Champ(rangee, 0)).None?))
    ensures r.Ignoree? <==> 2 <= |rangee| && Champ(rangee, 1) !in services
    ensures r.Retenue? ==>
      && r.valeur == Voyage(Champ(rangee, 2), Stoi(Champ(rangee, 0)).value, Champ(rangee, 1), Champ(rangee, 3), [])
      && r.valeur.service in services
  {
    if |rangee| < 2 then Malformee
    else if Champ(rangee, 1) !in services then Ignoree
    else if |rangee| < 4 then Malformee
    else match Stoi(Champ(rangee, 0))
      case None => Malformee
      case Some(ligne) => Retenue(Voyage(Champ(rangee, 2), ligne, Champ(rangee, 1), Champ(rangee, 3), []))
  }

  /** `ajouterVoyagesDeLaDate` on the rows after the header: stops at the first malformed row. */
  function ChargerVoyages(services: set<string>, voyages: map<string, Voyage>, rangees: seq<Rangee>): Bilan<map<string, Voyage>>
    decreases |rangees|
  {
    if |rangees| == 0 then Bilan(voyages, Reussi)
    else match LireVoyage(services, rangees[0])
      case Malformee => Bilan(voyages, Echec(DonneeInvalide))
      case Ignoree => ChargerVoyages(services, voyages, rangees[1..])
      case Retenue(v) => ChargerVoyages(services, voyages[v.id := v], rangees[1..])
  }

  /** The fold from row `i` on, unfolded once. */
  lemma ChargerVoyagesPas(services: set<string>, voyages: map<string, Voyage>, rangees: seq<Rangee>, i: nat)
    requires i < |rangees|
    ensures ChargerVoyages(services, voyages, rangees[i..])
            == match LireVoyage(services, rangees[i])
               case Malformee => Bilan(voyages, Echec(DonneeInvalide))
               case Ignoree => ChargerVoyages(services, voyages, rangees[i + 1..])
               case Retenue(v) => ChargerVoyages(services, voyages[v.id := v], rangees[i + 1..])
  {
    assert rangees[i..][0] == rangees[i] && rangees[i..][1..] == rangees[i + 1..];
  }

  /** The trips the rows keep, in order, when no row is malformed; each has an active service and no stop-time yet. */
  function VoyagesRetenus(services: set<string>, rangees: seq<Rangee>): (r: Option<seq<Voyage>>)
    ensures r.Some? ==> forall v :: v in r.value ==> v.service in services && v.arrets == []
    decreases |rangees|
  {
    if |rangees| == 0 then Some([])
    else match (LireVoyage(services, rangees[0]), VoyagesRetenus(services, rangees[1..]))
      case (Malformee, _) => None
      case (_, None) => None
      case (Ignoree, Some(vs)) => Some(vs)
      case (Retenue(v), Some(vs)) => Some([v] + vs)
  }

  /** The key a trip is stored under in `m_voyages`: its id. */
  function IdVoyage(x: Voyage): string
  {
    x.id
  }

  /** The kept trips are defined iff no row throws. */
  lemma {:induction false} VoyagesRetenusToutes(services: set<string>, rangees: seq<Rangee>)
    ensures VoyagesRetenus(services, rangees).Some? <==> forall k :: 0 <= k < |rangees| ==> !LireVoyage(services, rangees[k]).Malformee?
    decreases |rangees|
  {
    if |rangees| > 0 {
      VoyagesRetenusToutes(services, rangees[1..]);
      assert forall k :: 0 < k < |rangees| ==> rangees[1..][k - 1] == rangees[k];
    }
  }

  /** The trips file loads iff no row is malformed; otherwise it throws. */
  lemma {:induction false} ChargerVoyagesIssue(services: set<string>, voyages: map<string, Voyage>, rangees: seq<Rangee>)
    ensures ChargerVoyages(services, voyages, rangees).issue == if VoyagesRetenus(services, rangees).Some? then Reussi else Echec(DonneeInvalide)
    decreases |rangees|
  {
    if |rangees| > 0 {
      match LireVoyage(services, rangees[0])
      case Malformee =>
      case Ignoree => ChargerVoyagesIssue(services, voyages, rangees[1..]);
      case Retenue(v) => ChargerVoyagesIssue(services, voyages[v.id := v], rangees[1..]);
    }
  }

  /**
    On rows that parse, `m_voyages` is the old map upserted by id with the
    kept trips in row order (the last row with an id wins,
    `Tables.DernierEcritGagne`).
   */
  lemma {:induction false} ChargerVoyagesSpec(services: set<string>, voyages: map<string, Voyage>, rangees: seq<Rangee>, vs: seq<Voyage>)
    requires VoyagesRetenus(services, rangees) == Some(vs)
    ensures ChargerVoyages(services, voyages, rangees).etat == Upserts(voyages, ParId(vs, IdVoyage))
    decreases |rangees|
  {
    if |rangees| > 0 {
      var vs' := VoyagesRetenus(services, rangees[1..]).value;
      match LireVoyage(services, rangees[0])
      case Ignoree => ChargerVoyagesSpec(services, voyages, rangees[1..], vs');
      case Retenue(v0) =>
        ChargerVoyagesSpec(services, voyages[v0.id := v0], rangees[1..], vs');
        assert vs == [v0] + vs';
        assert ParId(vs, IdVoyage) == [(v0.id, v0)] + ParId(vs', IdVoyage);
    }
  }

  /** The trips kept by rows that parse, split after the first row. */
  lemma VoyagesRetenusTete(services: set<string>, rangees: seq<Rangee>, vs: seq<Voyage>)
    requires VoyagesRetenus(services, rangees) == Some(vs)
    requires 0 < |rangees|
    ensures !LireVoyage(services, rangees[0]).Malformee?
    ensures VoyagesRetenus(services, rangees[1..]).Some?
    ensures vs == if LireVoyage(services, rangees[0]).Retenue?
                  then [LireVoyage(services, rangees[0]).valeur] + VoyagesRetenus(services, rangees[1..]).value
                  else VoyagesRetenus(services, rangees[1..]).value
  {
  }

  /** A kept trip comes from a row `LireVoyage` keeps. */
  lemma {:induction false} VoyageRetenuProvenance(services: set<string>, rangees: seq<Rangee>, vs: seq<Voyage>, v: Voyage)
    requires VoyagesRetenus(services, rangees) == Some(vs)
    requires v in vs
    ensures exists k :: 0 <= k < |rangees| && LireVoyage(services, rangees[k]) == Retenue(v)
    decreases |rangees|
  {
    VoyagesRetenusTete(services, rangees, vs);
    if LireVoyage(services, rangees[0]) != Retenue(v) {
      VoyageRetenuProvenance(services, rangees[1..], VoyagesRetenus(services, rangees[1..]).value, v);
      var k :| 0 <= k < |rangees[1..]| && LireVoyage(services, rangees[1..][k]) == Retenue(v);
      assert rangees[1..][k] == rangees[k + 1];
    }
  }

  /** Every row `LireVoyage` keeps yields a kept trip. */
  lemma {:induction false} VoyageRetenuPresent(services: set<string>, rangees: seq<Rangee>, vs: seq<Voyage>, k: nat)
    requires VoyagesRetenus(services, rangees) == Some(vs)
    requires k < |rangees| && LireVoyage(services, rangees[k]).Retenue?
    ensures LireVoyage(services, rangees[k]).valeur in vs
    decreases k
  {
    VoyagesRetenusTete(services, rangees, vs);
    if k == 0 {
      assert vs[0] == LireVoyage(services, rangees[0]).valeur;
    } else {
      assert rangees[1..][k - 1] == rangees[k];
      VoyageRetenuPresent(services, rangees[1..], VoyagesRetenus(services, rangees[1..]).value, k - 1);
    }
  }

  /**
    The kept trips are exactly those of the rows whose service is active:
    each comes from such a row, and every such row is kept.
   */
  lemma VoyagesRetenusContenu(services: set<string>, rangees: seq<Rangee>, vs: seq<Voyage>)
    requires VoyagesRetenus(services, rangees) == Some(vs)
    ensures forall v :: v in vs <==> exists k :: 0 <= k < |rangees| && LireVoyage(services, rangees[k]) == Retenue(v)
  {
    forall v ensures v in vs <==> exists k :: 0 <= k < |rangees| && LireVoyage(services, rangees[k]) == Retenue(v) {
      if v in vs {
        VoyageRetenuProvenance(services, rangees, vs, v);
      }
      if exists k :: 0 <= k < |rangees| && LireVoyage(services, rangees[k]) == Retenue(v) {
        var k :| 0 <= k < |rangees| && LireVoyage(services, rangees[k]) == Retenue(v);
        VoyageRetenuPresent(services, rangees, vs, k);
      }
    }
  }

  /**
    A malformed row stops the load: the trips of the rows before it stay
    stored and nothing after it is read.
   */
  lemma {:induction false} ChargerVoyagesEchec(services: set<string>, voyages: map<string, Voyage>, rangees: seq<Rangee>, k: nat)
    requires k < |rangees|
    requires VoyagesRetenus(services, rangees[..k]).Some?
    requires LireVoyage(services, rangees[k]).Malformee?
    ensures ChargerVoyages(services, voyages, rangees) == Bilan(ChargerVoyages(services, voyages, rangees[..k]).etat, Echec(DonneeInvalide))
    decreases k
  {
    if k > 0 {
      assert rangees[..k][0] == rangees[0];
      assert rangees[..k][1..] == rangees[1..][..k - 1];
      match LireVoyage(services, rangees[0])
      case Ignoree => ChargerVoyagesEchec(services, voyages, rangees[1..], k - 1);
      case Retenue(v) => ChargerVoyagesEchec(services, voyages[v.id := v], rangees[1..], k - 1);
    }
  }
}
