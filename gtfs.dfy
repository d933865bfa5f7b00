/**
  The GTFS snapshot: the object that owns every catalog and whose loaders
  fill it in the order routes, stations, services, trips, stop-times,
  transfers. Each loader reads the rows of one file (`None` when the file does
  not open), skips the header, and throws on the first malformed row; what it
  stored before that row stays stored.
 */
module Gtfs {
  import opened Lecture
  import opened Modele
  import opened Lignes
  import opened Stations
  import opened Services
  import opened Voyages
  import opened Arrets
  import opened Transferts
  import opened Coherence


  class DonneesGTFS {
    /** `m_lignes`: the routes by id. */
    var lignes: map<int, Ligne>
    /** `m_lignes_par_numero`: every route under its number, in insertion order. */
    var lignesParNumero: map<string, seq<Ligne>>
    /** `m_stations`: the stations by id. */
    var stations: map<u32, Station>
    /** `m_services`: the services active on `date`. */
    var services: set<string>
    /** `m_voyages`: the trips by id. */
    var voyages: map<string, Voyage>
    /** `m_transferts` */
    var transferts: seq<Transfert>
    /** `m_stationsDeTransfert`: the origin stations of the transfers. */
    var stationsDeTransfert: set<u32>
    /** `m_nbArrets`: the stop-times admitted so far. */
    var nbArrets: nat
    /** `m_tousLesArretsPresents`: the stop-times of the date and window are loaded. */
    var tousLesArretsPresents: bool
    /** `m_date`, `m_now1`, `m_now2`: the service date and the window `[now1, now2)`. */
    const date: Date
    const now1: Heure
    const now2: Heure

    /**
      What every loader preserves: each route and trip is stored under its own
      id and each route under its own number; every trip has an active
      service; every stop-time is held by its own trip and its own station
      and lies in the window.
     */
    ghost predicate Coherent()
      reads this
    {
      && LignesRangees(lignes, lignesParNumero)
      && VoyagesRanges(voyages, services, now1, now2)
      && StationsRangees(stations, now1, now2)
    }

    /** `m_voyages`, `m_stations` and `m_nbArrets` together. */
    function EtatDesArrets(): EtatArrets
      reads this`voyages, this`stations, this`nbArrets
    {
      EtatArrets(voyages, stations, nbArrets)
    }

    /** An empty snapshot for one date and one window; the transfers cannot load yet. */
    constructor (date: Date, now1: Heure, now2: Heure)
      ensures this.date == date && this.now1 == now1 && this.now2 == now2
      ensures lignes == map[] && lignesParNumero == map[] && stations == map[] && services == {}
      ensures voyages == map[] && transferts == [] && stationsDeTransfert == {}
      ensures nbArrets == 0 && !tousLesArretsPresents
      ensures Coherent()
    {
      this.date, this.now1, this.now2 := date, now1, now2;
      lignes, lignesParNumero, stations, services := map[], map[], map[], {};
      voyages, transferts, stationsDeTransfert := map[], [], {};
      nbArrets, tousLesArretsPresents := 0, false;
    }

    /** `m_lignes` and `m_lignes_par_numero` together. */
    function EtatDesLignes(): EtatLignes
      reads this`lignes, this`lignesParNumero
    {
      EtatLignes(lignes, lignesParNumero)
    }

    /**
      `ajouterLignes`: stores each route under its id (replacing an earlier
      one) and adds it under its number. `categorie` is
      `Ligne::couleurToCategorie`.
     */
    method AjouterLignes(categorie: string -> CategorieBus, fichier: Option<seq<Rangee>>) returns (issue: Issue)
      modifies this`lignes, this`lignesParNumero
      ensures fichier.None? ==> issue == Echec(FichierIllisible) && EtatDesLignes() == old(EtatDesLignes())
      ensures fichier.Some? ==> Bilan(EtatDesLignes(), issue) == ChargerLignes(categorie, old(EtatDesLignes()), Donnees(fichier.value))
      ensures old(Coherent()) ==> Coherent()
    {
      if fichier.None? {
        return Echec(FichierIllisible);
      }
      if LignesRangees(lignes, lignesParNumero) {
        ChargerLignesRangees(categorie, EtatDesLignes(), Donnees(fichier.value));
      }
      issue := LireLesLignes(categorie, fichier.value);
    }

    /** The read loop of `ajouterLignes`. */
    method LireLesLignes(categorie: string -> CategorieBus, rangees: seq<Rangee>) returns (issue: Issue)
      modifies this`lignes, this`lignesParNumero
      ensures Bilan(EtatDesLignes(), issue) == ChargerLignes(categorie, old(EtatDesLignes()), Donnees(rangees))
    {
      ghost var attendu := ChargerLignes(categorie, EtatDesLignes(), Donnees(rangees));
      var index := 0;
      while index < |rangees|
        invariant 0 <= index <= |rangees|
        invariant index == 0 ==> EtatDesLignes() == old(EtatDesLignes())
        invariant index > 0 ==> attendu == ChargerLignes(categorie, EtatDesLignes(), rangees[index..])
      {
        if index != 0 {
          ChargerLignesPas(categorie, EtatDesLignes(), rangees, index);
          var lue := LireLigne(categorie, rangees[index]);
          if lue.None? {
            return Echec(DonneeInvalide);
          }
          var ligne := lue.value;
          assert attendu == ChargerLignes(categorie, Inserer(EtatDesLignes(), ligne), rangees[index + 1..]);
          lignes := lignes[ligne.id := ligne];
          lignesParNumero := lignesParNumero[ligne.numero := SousNumero(lignesParNumero, ligne.numero) + [ligne]];
        } else {
          assert Donnees(rangees) == rangees[1..];
        }
        index := index + 1;
      }
      if index == 0 {
        assert Donnees(rangees) == [];
      }
      return Reussi;
    }

    /** `ajouterStations`: stores each station under its id, replacing an earlier one. */
    method AjouterStations(fichier: Option<seq<Rangee>>) returns (issue: Issue)
      modifies this`stations
      ensures fichier.None? ==> issue == Echec(FichierIllisible) && stations == old(stations)
      ensures fichier.Some? ==> Bilan(stations, issue) == ChargerStations(old(stations), Donnees(fichier.value))
      ensures old(Coherent()) ==> Coherent()
    {
      if fichier.None? {
        return Echec(FichierIllisible);
      }
      if StationsRangees(stations, now1, now2) {
        ChargerStationsRangees(stations, now1, now2, Donnees(fichier.value));
      }
      issue := LireLesStations(fichier.value);
    }

    /** The read loop of `ajouterStations`. */
    method LireLesStations(rangees: seq<Rangee>) returns (issue: Issue)
      modifies this`stations
      ensures Bilan(stations, issue) == ChargerStations(old(stations), Donnees(rangees))
    {
      ghost var attendu := ChargerStations(stations, Donnees(rangees));
      var index := 0;
      while index < |rangees|
        invariant 0 <= index <= |rangees|
        invariant index == 0 ==> stations == old(stations)
        invariant index > 0 ==> attendu == ChargerStations(stations, rangees[index..])
      {
        if index != 0 {
          ChargerStationsPas(stations, rangees, index);
          var lue := LireStation(rangees[index]);
          if lue.None? {
            return Echec(DonneeInvalide);
          }
          var station := lue.value;
          assert attendu == ChargerStations(stations[station.id := station], rangees[index + 1..]);
          stations := stations[station.id := station];
        } else {
          assert Donnees(rangees) == rangees[1..];
        }
        index := index + 1;
      }
      if index == 0 {
        assert Donnees(rangees) == [];
      }
      return Reussi;
    }

    /** `ajouterServices`: adds the services added on `date` (exception type "1"). */
    method AjouterServices(fichier: Option<seq<Rangee>>) returns (issue: Issue)
      modifies this`services
      ensures fichier.None? ==> issue == Echec(FichierIllisible) && services == old(services)
      ensures fichier.Some? ==> Bilan(services, issue) == ChargerServices(date, old(services), Donnees(fichier.value))
      ensures old(Coherent()) ==> Coherent()
    {
      if fichier.None? {
        return Echec(FichierIllisible);
      }
      ChargerServicesCroit(date, services, Donnees(fichier.value));
      if VoyagesRanges(voyages, services, now1, now2) {
        ServicesEtendus(voyages, services, ChargerServices(date, services, Donnees(fichier.value)).etat, now1, now2);
      }
      issue := LireLesServices(fichier.value);
    }

    /** The read loop of `ajouterServices`. */
    method LireLesServices(rangees: seq<Rangee>) returns (issue: Issue)
      modifies this`services
      ensures Bilan(services, issue) == ChargerServices(date, old(services), Donnees(rangees))
    {
      ghost var attendu := ChargerServices(date, services, Donnees(rangees));
      var index := 0;
      while index < |rangees|
        invariant 0 <= index <= |rangees|
        invariant index == 0 ==> services == old(services)
        invariant index > 0 ==> attendu == ChargerServices(date, services, rangees[index..])
      {
        if index != 0 {
          ChargerServicesPas(date, services, rangees, index);
          var lu := LireService(date, rangees[index]);
          if lu.Malformee? {
            return Echec(DonneeInvalide);
          }
          if lu.Retenue? {
            assert attendu == ChargerServices(date, services + {lu.valeur}, rangees[index + 1..]);
            services := services + {lu.valeur};
          } else {
            assert attendu == ChargerServices(date, services, rangees[index + 1..]);
          }
        } else {
          assert Donnees(rangees) == rangees[1..];
        }
        index := index + 1;
      }
      if index == 0 {
        assert Donnees(rangees) == [];
      }
      return Reussi;
    }

    /** `ajouterVoyagesDeLaDate`: stores under its id each trip whose service is active. */
    method AjouterVoyagesDeLaDate(fichier: Option<seq<Rangee>>) returns (issue: Issue)
      modifies this`voyages
      ensures fichier.None? ==> issue == Echec(FichierIllisible) && voyages == old(voyages)
      ensures fichier.Some? ==> Bilan(voyages, issue) == ChargerVoyages(services, old(voyages), Donnees(fichier.value))
      ensures old(Coherent()) ==> Coherent()
    {
      if fichier.None? {
        return Echec(FichierIllisible);
      }
      if VoyagesRanges(voyages, services, now1, now2) {
        ChargerVoyagesRanges(services, voyages, now1, now2, Donnees(fichier.value));
      }
      issue := LireLesVoyages(fichier.value);
    }

    /** The read loop of `ajouterVoyagesDeLaDate`. */
    method LireLesVoyages(rangees: seq<Rangee>) returns (issue: Issue)
      modifies this`voyages
      ensures Bilan(voyages, issue) == ChargerVoyages(services, old(voyages), Donnees(rangees))
    {
      ghost var attendu := ChargerVoyages(services, voyages, Donnees(rangees));
      var index := 0;
      while index < |rangees|
        invariant 0 <= index <= |rangees|
        invariant index == 0 ==> voyages == old(voyages)
        invariant index > 0 ==> attendu == ChargerVoyages(services, voyages, rangees[index..])
      {
        if index != 0 {
          ChargerVoyagesPas(services, voyages, rangees, index);
          var lu := LireVoyage(services, rangees[index]);
          if lu.Malformee? {
            return Echec(DonneeInvalide);
          }
          if lu.Retenue? {
            var voyage := lu.valeur;
            assert attendu == ChargerVoyages(services, voyages[voyage.id := voyage], rangees[index + 1..]);
            voyages := voyages[voyage.id := voyage];
          } else {
            assert attendu == ChargerVoyages(services, voyages, rangees[index + 1..]);
          }
        } else {
          assert Donnees(rangees) == rangees[1..];
        }
        index := index + 1;
      }
      if index == 0 {
        assert Donnees(rangees) == [];
      }
      return Reussi;
    }

    /**
      `ajouterArretsDesVoyagesDeLaDate`: attaches each admitted stop-time to
      its trip and its station and counts it; then removes the trips, and
      then the stations, left with no stop-time, and marks the stop-times
      loaded. A malformed row throws before the removals.
     */
    method AjouterArretsDesVoyagesDeLaDate(fichier: Option<seq<Rangee>>) returns (issue: Issue)
      modifies this`voyages, this`stations, this`nbArrets, this`tousLesArretsPresents
      ensures fichier.None? ==>
        && issue == Echec(FichierIllisible) && EtatDesArrets() == old(EtatDesArrets())
        && tousLesArretsPresents == old(tousLesArretsPresents)
      ensures fichier.Some? ==>
        var lu := IngererArrets(old(EtatDesArrets()), now1, now2, Donnees(fichier.value));
        && issue == lu.issue
        && nbArrets == lu.etat.nbArrets
        && (issue == Reussi ==>
              voyages == SansVoyagesVides(lu.etat.voyages) && stations == SansStationsVides(lu.etat.stations) && tousLesArretsPresents)
        && (issue != Reussi ==>
              voyages == lu.etat.voyages && stations == lu.etat.stations && tousLesArretsPresents == old(tousLesArretsPresents))
      ensures issue == Reussi ==>
        && (forall t :: t in voyages ==> |voyages[t].arrets| > 0)
        && (forall s :: s in stations ==> |stations[s].arrets| > 0)
      ensures old(Coherent()) ==> Coherent()
    {
      if fichier.None? {
        return Echec(FichierIllisible);
      }
      var rangees := fichier.value;
      ghost var coherent := Coherent();
      if coherent {
        IngererArretsRanges(EtatDesArrets(), services, now1, now2, Donnees(rangees));
      }
      issue := LireLesArrets(rangees);
      if issue != Reussi {
        return;
      }
      ghost var lu := EtatDesArrets();
      if coherent {
        ElagageRange(lu.voyages, lu.stations, services, now1, now2);
      }

      RetirerVoyagesVides();
      RetirerStationsVides();
      tousLesArretsPresents := true;
      assert voyages == SansVoyagesVides(lu.voyages);
      assert stations == SansStationsVides(lu.stations);
      return Reussi;
    }

    /**
      The read loop of `ajouterArretsDesVoyagesDeLaDate`: every admitted
      stop-time is attached to its trip and its station; a malformed row
      throws and leaves the stop-times attached before it.
     */
    method LireLesArrets(rangees: seq<Rangee>) returns (issue: Issue)
      modifies this`voyages, this`stations, this`nbArrets
      ensures Bilan(EtatDesArrets(), issue) == IngererArrets(old(EtatDesArrets()), now1, now2, Donnees(rangees))
    {
      ghost var attendu := IngererArrets(EtatDesArrets(), now1, now2, Donnees(rangees));
      var index := 0;
      while index < |rangees|
        invariant 0 <= index <= |rangees|
        invariant index == 0 ==> EtatDesArrets() == old(EtatDesArrets())
        invariant index > 0 ==>
          attendu == IngererArrets(EtatDesArrets(), now1, now2, rangees[index..])
      {
        if index != 0 {
          ghost var avant := EtatDesArrets();
          IngererArretsPas(avant, now1, now2, rangees, index);
          var lu := LireArret(voyages.Keys, now1, now2, rangees[index]);
          if lu.Malformee? {
            return Echec(DonneeInvalide);
          }
          if lu.Retenue? {
            AttacherArret(lu.valeur);
            assert attendu == IngererArrets(Attacher(avant, lu.valeur), now1, now2, rangees[index + 1..]);
          } else {
            assert attendu == IngererArrets(avant, now1, now2, rangees[index + 1..]);
          }
        } else {
          assert Donnees(rangees) == rangees[1..];
          assert attendu == IngererArrets(EtatDesArrets(), now1, now2, rangees[1..]);
        }
        index := index + 1;
      }
      if index == 0 {
        assert Donnees(rangees) == [];
      }
      return Reussi;
    }

    /**
      The body of the read loop of `ajouterArretsDesVoyagesDeLaDate` for an
      admitted stop-time: appended to its trip, appended to its station
      (created with default fields when absent) and counted.
     */
    method AttacherArret(arret: Arret)
      requires arret.voyage in voyages
      modifies this`voyages, this`stations, this`nbArrets
      ensures EtatDesArrets() == Attacher(old(EtatDesArrets()), arret)
    {
      var voyage := voyages[arret.voyage];
      voyages := voyages[arret.voyage := voyage.(arrets := voyage.arrets + [arret])];
      var station := if arret.station in stations then stations[arret.station] else StationParDefaut;
      stations := stations[arret.station := station.(arrets := station.arrets + [arret])];
      nbArrets := nbArrets + 1;
    }

    /** The first removal loop of `ajouterArretsDesVoyagesDeLaDate`: erases every trip with no stop-time. */
    method RetirerVoyagesVides()
      modifies this`voyages
      ensures voyages == SansVoyagesVides(old(voyages))
    {
      var copieDesVoyages := voyages;
      var voyagesRestants := copieDesVoyages.Keys;
      while voyagesRestants != {}
        invariant voyagesRestants <= copieDesVoyages.Keys
        invariant forall t :: t in voyages <==>
          t in copieDesVoyages && (t in voyagesRestants || |copieDesVoyages[t].arrets| > 0)
        invariant forall t :: t in voyages ==> voyages[t] == copieDesVoyages[t]
        decreases voyagesRestants
      {
        var t :| t in voyagesRestants;
        if |copieDesVoyages[t].arrets| == 0 {
          voyages := voyages - {t};
        }
        voyagesRestants := voyagesRestants - {t};
      }
    }

    /** The second removal loop: erases every station with no stop-time. */
    method RetirerStationsVides()
      modifies this`stations
      ensures stations == SansStationsVides(old(stations))
    {
      var copieDesStations := stations;
      var stationsRestantes := copieDesStations.Keys;
      while stationsRestantes != {}
        invariant stationsRestantes <= copieDesStations.Keys
        invariant forall s :: s in stations <==>
          s in copieDesStations && (s in stationsRestantes || |copieDesStations[s].arrets| > 0)
        invariant forall s :: s in stations ==> stations[s] == copieDesStations[s]
        decreases stationsRestantes
      {
        var s :| s in stationsRestantes;
        if |copieDesStations[s].arrets| == 0 {
          stations := stations - {s};
        }
        stationsRestantes := stationsRestantes - {s};
      }
    }

    /**
      `ajouterTransferts`: first checks that the file opens, then that the
      stop-times are loaded; keeps the transfers between two present
      stations and records their origins.
     */
    method AjouterTransferts(fichier: Option<seq<Rangee>>) returns (issue: Issue)
      modifies this`transferts, this`stationsDeTransfert
      ensures fichier.None? ==> issue == Echec(FichierIllisible)
      ensures fichier.Some? && !tousLesArretsPresents ==> issue == Echec(ArretsAbsents)
      ensures fichier.None? || !tousLesArretsPresents ==>
        transferts == old(transferts) && stationsDeTransfert == old(stationsDeTransfert)
      ensures fichier.Some? && tousLesArretsPresents ==>
        Bilan(EtatTransferts(transferts, stationsDeTransfert), issue)
        == ChargerTransferts(stations.Keys, EtatTransferts(old(transferts), old(stationsDeTransfert)), Donnees(fichier.value))
    {
      if fichier.None? {
        return Echec(FichierIllisible);
      }
      if !tousLesArretsPresents {
        return Echec(ArretsAbsents);
      }
      issue := LireLesTransferts(fichier.value);
    }

    /** The read loop of `ajouterTransferts`. */
    method LireLesTransferts(rangees: seq<Rangee>) returns (issue: Issue)
      modifies this`transferts, this`stationsDeTransfert
      ensures Bilan(EtatTransferts(transferts, stationsDeTransfert), issue)
              == ChargerTransferts(stations.Keys, EtatTransferts(old(transferts), old(stationsDeTransfert)), Donnees(rangees))
    {
      ghost var attendu := ChargerTransferts(stations.Keys, EtatTransferts(transferts, stationsDeTransfert), Donnees(rangees));
      var index := 0;
      while index < |rangees|
        invariant 0 <= index <= |rangees|
        invariant index == 0 ==> transferts == old(transferts) && stationsDeTransfert == old(stationsDeTransfert)
        invariant index > 0 ==>
          attendu == ChargerTransferts(stations.Keys, EtatTransferts(transferts, stationsDeTransfert), rangees[index..])
      {
        if index != 0 {
          ChargerTransfertsPas(stations.Keys, EtatTransferts(transferts, stationsDeTransfert), rangees, index);
          var lu := LireTransfert(stations.Keys, rangees[index]);
          if lu.Malformee? {
            return Echec(DonneeInvalide);
          }
          if lu.Retenue? {
            var transfert := lu.valeur;
            assert attendu == ChargerTransferts(stations.Keys, EtatTransferts(transferts + [transfert], stationsDeTransfert + {transfert.origine}), rangees[index + 1..]);
            transferts := transferts + [transfert];
            stationsDeTransfert := stationsDeTransfert + {transfert.origine};
          } else {
            assert attendu == ChargerTransferts(stations.Keys, EtatTransferts(transferts, stationsDeTransfert), rangees[index + 1..]);
          }
        } else {
          assert Donnees(rangees) == rangees[1..];
          assert attendu == ChargerTransferts(stations.Keys, EtatTransferts(transferts, stationsDeTransfert), rangees[1..]);
        }
        index := index + 1;
      }
      if index == 0 {
        assert Donnees(rangees) == [];
      }
      return Reussi;
    }
  }
}
