/**
  The invariants the loaders keep between them: every entry of a catalog is
  stored under its own key, every trip has an active service, and every
  stop-time sits on its own trip and its own station and lies in the time
  window. Each lemma shows that one loader, as a fold over its rows, keeps
  the invariants it can touch, whether the load succeeds or throws midway.
 */
module Coherence {
  import opened Lecture
  import opened Modele
  import opened Lignes
  import opened Stations
  import opened Services
  import opened Voyages
  import opened Arrets

  /** Each route is stored under its own id and listed under its own number. */
  ghost predicate LignesRangees(lignes: map<int, Ligne>, lignesParNumero: map<string, seq<Ligne>>)
  {
    && (forall id :: id in lignes ==> lignes[id].id == id)
    && (forall numero, l :: numero in lignesParNumero && l in lignesParNumero[numero] ==> l.numero == numero)
  }

  /** Each trip is stored under its own id, has an active service and holds only its own stop-times of the window. */
  ghost predicate VoyagesRanges(voyages: map<string, Voyage>, services: set<string>, now1: Heure, now2: Heure)
  {
    && (forall t :: t in voyages ==> voyages[t].id == t && voyages[t].service in services)
    && (forall t, a :: t in voyages && a in voyages[t].arrets ==>
          a.voyage == t && DansFenetre(now1, now2, a.arrivee, a.depart))
  }

  /** Each station holds only its own stop-times of the window. */
  ghost predicate StationsRangees(stations: map<u32, Station>, now1: Heure, now2: Heure)
  {
    forall s, a :: s in stations && a in stations[s].arrets ==>
      a.station == s && DansFenetre(now1, now2, a.arrivee, a.depart)
  }

  /** `ajouterLignes` keeps every route under its own id and its own number, up to the row that throws. */
  lemma {:induction false} ChargerLignesRangees(categorie: string -> CategorieBus, e: EtatLignes, rangees: seq<Rangee>)
    requires LignesRangees(e.lignes, e.parNumero)
    ensures LignesRangees(ChargerLignes(categorie, e, rangees).etat.lignes, ChargerLignes(categorie, e, rangees).etat.parNumero)
    decreases |rangees|
  {
    if |rangees| > 0 {
      match LireLigne(categorie, rangees[0])
      case None =>
      case Some(l) =>
        var e' := Inserer(e, l);
        assert LignesRangees(e'.lignes, e'.parNumero);
        ChargerLignesRangees(categorie, e', rangees[1..]);
    }
  }

  /** `ajouterStations` stores only stations with no stop-time, so every stop-time held by a station stays its own. */
  lemma {:induction false} ChargerStationsRangees(stations: map<u32, Station>, now1: Heure, now2: Heure, rangees: seq<Rangee>)
    requires StationsRangees(stations, now1, now2)
    ensures StationsRangees(ChargerStations(stations, rangees).etat, now1, now2)
    decreases |rangees|
  {
    if |rangees| > 0 {
      match LireStation(rangees[0])
      case None =>
      case Some(s) =>
        var stations' := stations[s.id := s];
        forall k, a | k in stations' && a in stations'[k].arrets
          ensures a.station == k && DansFenetre(now1, now2, a.arrivee, a.depart)
        {
          assert k != s.id;
          assert a in stations[k].arrets;
        }
        ChargerStationsRangees(stations[s.id := s], now1, now2, rangees[1..]);
    }
  }

  /** Adding services keeps every trip's service active. */
  lemma ServicesEtendus(voyages: map<string, Voyage>, services: set<string>, plus: set<string>, now1: Heure, now2: Heure)
    requires VoyagesRanges(voyages, services, now1, now2)
    requires services <= plus
    ensures VoyagesRanges(voyages, plus, now1, now2)
  {
  }

  /** `ajouterVoyagesDeLaDate` stores each trip under its own id, with an active service and no stop-time. */
  lemma {:induction false} ChargerVoyagesRanges(services: set<string>, voyages: map<string, Voyage>, now1: Heure, now2: Heure, rangees: seq<Rangee>)
    requires VoyagesRanges(voyages, services, now1, now2)
    ensures VoyagesRanges(ChargerVoyages(services, voyages, rangees).etat, services, now1, now2)
    decreases |rangees|
  {
    if |rangees| > 0 {
      match LireVoyage(services, rangees[0])
      case Malformee =>
      case Ignoree => ChargerVoyagesRanges(services, voyages, now1, now2, rangees[1..]);
      case Retenue(v) =>
        assert VoyagesRanges(voyages[v.id := v], services, now1, now2);
        ChargerVoyagesRanges(services, voyages[v.id := v], now1, now2, rangees[1..]);
    }
  }

  /** Attaching one admitted stop-time keeps both invariants: it carries its own trip and station and lies in the window. */
  lemma AttacherRange(e: EtatArrets, services: set<string>, now1: Heure, now2: Heure, a: Arret)
    requires VoyagesRanges(e.voyages, services, now1, now2) && StationsRangees(e.stations, now1, now2)
    requires a.voyage in e.voyages && DansFenetre(now1, now2, a.arrivee, a.depart)
    ensures VoyagesRanges(Attacher(e, a).voyages, services, now1, now2)
    ensures StationsRangees(Attacher(e, a).stations, now1, now2)
  {
  }

  /** The read loop of `ajouterArretsDesVoyagesDeLaDate` keeps both invariants, up to the row that throws. */
  lemma {:induction false} IngererArretsRanges(e: EtatArrets, services: set<string>, now1: Heure, now2: Heure, rangees: seq<Rangee>)
    requires VoyagesRanges(e.voyages, services, now1, now2) && StationsRangees(e.stations, now1, now2)
    ensures VoyagesRanges(IngererArrets(e, now1, now2, rangees).etat.voyages, services, now1, now2)
    ensures StationsRangees(IngererArrets(e, now1, now2, rangees).etat.stations, now1, now2)
    decreases |rangees|
  {
    if |rangees| > 0 {
      match LireArret(e.voyages.Keys, now1, now2, rangees[0])
      case Malformee =>
      case Ignoree => IngererArretsRanges(e, services, now1, now2, rangees[1..]);
      case Retenue(a) =>
        AttacherRange(e, services, now1, now2, a);
        IngererArretsRanges(Attacher(e, a), services, now1, now2, rangees[1..]);
    }
  }

  /** Removing the trips and the stations left with no stop-time keeps both invariants. */
  lemma ElagageRange(voyages: map<string, Voyage>, stations: map<u32, Station>, services: set<string>, now1: Heure, now2: Heure)
    requires VoyagesRanges(voyages, services, now1, now2) && StationsRangees(stations, now1, now2)
    ensures VoyagesRanges(SansVoyagesVides(voyages), services, now1, now2)
    ensures StationsRangees(SansStationsVides(stations), now1, now2)
  {
  }
}
