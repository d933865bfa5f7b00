/**
  The stop-time ingestor and the pruning that follows it:
  `ajouterArretsDesVoyagesDeLaDate`. A stop-time row is admitted iff its trip
  is loaded, it arrives before the end of the window and leaves at or after
  its start. The stop id is not checked: an admitted row attaches its
  stop-time to its trip and to the station with that id, which `m_stations[id]`
  creates when it is missing. Trips and then stations left with no stop-time
  are removed afterwards.
 */
module Arrets {
  import opened Lecture
  import opened Modele

  /** `m_voyages`, `m_stations` and `m_nbArrets`, the fields the stop-times change. */
  datatype EtatArrets = EtatArrets(voyages: map<string, Voyage>, stations: map<u32, Station>, nbArrets: nat)

  /** An `HH:MM:SS` field: characters 0-1, 3-4 and 6-7 each read by `stoi`. */
  function LireHeure(texte: string): Option<Heure>
  {
    var h := SousChaine(texte, 0, 2);
    var m := SousChaine(texte, 3, 2);
    var s := SousChaine(texte, 6, 2);
    if h.None? || m.None? || s.None? then None
    else
      var heures := Stoi(h.value);
      var minutes := Stoi(m.value);
      var secondes := Stoi(s.value);
      if heures.None? || minutes.None? || secondes.None? then None
      else Some(Heure(heures.value, minutes.value, secondes.value))
  }

  /**
    A time field with digits at positions 0-1, 3-4 and 6-7 reads as the
    hours, minutes and seconds those digits denote, whatever the separators
    and whatever follows.
   */
  lemma LireHeureChiffres(t: string)
    requires 8 <= |t|
    requires EstChiffre(t[0]) && EstChiffre(t[1]) && EstChiffre(t[3]) && EstChiffre(t[4]) && EstChiffre(t[6]) && EstChiffre(t[7])
    ensures LireHeure(t) == Some(Heure(ValeurDecimale(t[0..2]), ValeurDecimale(t[3..5]), ValeurDecimale(t[6..8])))
  {
    SousChaineEntiere(t, 0, 2);
    SousChaineEntiere(t, 3, 2);
    SousChaineEntiere(t, 6, 2);
  }

  /** `"HH:MM:SS"` reads as `Heure(HH, MM, SS)`. */
  lemma LireHeureTexte(hh: string, mm: string, ss: string)
    requires |hh| == 2 && |mm| == 2 && |ss| == 2
    requires EstChiffre(hh[0]) && EstChiffre(hh[1]) && EstChiffre(mm[0]) && EstChiffre(mm[1]) && EstChiffre(ss[0]) && EstChiffre(ss[1])
    ensures LireHeure(hh + ":" + mm + ":" + ss) == Some(Heure(ValeurDecimale(hh), ValeurDecimale(mm), ValeurDecimale(ss)))
  {
    var t := hh + ":" + mm + ":" + ss;
    TranchesHeure(hh, mm, ss);
    assert t[0] == hh[0] && t[1] == hh[1] && t[3] == mm[0] && t[4] == mm[1] && t[6] == ss[0] && t[7] == ss[1];
    LireHeureChiffres(t);
  }

  /** A time field shorter than seven characters throws: the seconds are cut past the end or are empty. */
  lemma LireHeureCourte(t: string)
    requires |t| < 7
    ensures LireHeure(t) == None
  {
    if |t| == 6 {
      assert t[6..] == "";
      StoiVide();
    }
  }

  /** The half-open window `[now1, now2)`: arrival before `now2`, departure not before `now1`. */
  predicate DansFenetre(now1: Heure, now2: Heure, arrivee: Heure, depart: Heure)
  {
    Avant(arrivee, now2) && !Avant(depart, now1)
  }

  /**
    The window is half-open: a stop-time arriving exactly at `now2` is out,
    and one leaving exactly at `now1` is in when it arrives before `now2`.
   */
  lemma DansFenetreBornes(now1: Heure, now2: Heure, arrivee: Heure, depart: Heure)
    ensures arrivee.EnSecondes() == now2.EnSecondes() ==> !DansFenetre(now1, now2, arrivee, depart)
    ensures depart.EnSecondes() == now1.EnSecondes() && Avant(arrivee, now2) ==> DansFenetre(now1, now2, arrivee, depart)
  {
  }

  /** The admission test of a stop-time row: its trip is loaded and its times lie in the window. */
  predicate Admis(voyages: set<string>, now1: Heure, now2: Heure, voyage: string, arrivee: Heure, depart: Heure)
  {
    voyage in voyages && DansFenetre(now1, now2, arrivee, depart)
  }

  /** More loaded trips or a wider window admit every stop-time admitted before. */
  lemma AdmisElargi(voyages: set<string>, voyages': set<string>, now1: Heure, now2: Heure, now1': Heure, now2': Heure,
                    voyage: string, arrivee: Heure, depart: Heure)
    requires voyages <= voyages'
    requires now1'.EnSecondes() <= now1.EnSecondes() && now2.EnSecondes() <= now2'.EnSecondes()
    requires Admis(voyages, now1, now2, voyage, arrivee, depart)
    ensures Admis(voyages', now1', now2', voyage, arrivee, depart)
  {
  }

  /**
    One row of the stop-times file: trip id in field 0, arrival in 1,
    departure in 2, stop id in 3, sequence number in 4. Five fields and two
    times are read from every row; the stop id and the sequence number are
    read only from an admitted row.
   */
  function LireArret(voyages: set<string>, now1: Heure, now2: Heure, rangee: Rangee): (r: Lu<Arret>)
    ensures r.Ignoree? <==>
      && 5 <= |rangee| && LireHeure(Champ(rangee, 1)).Some? && LireHeure(Champ(rangee, 2)).Some?
      && !Admis(voyages, now1, now2, Champ(rangee, 0), LireHeure(Champ(rangee, 1)).value, LireHeure(Champ(rangee, 2)).value)
    ensures r.Retenue? ==>
      && 5 <= |rangee|
      && r.valeur.voyage == Champ(rangee, 0) && Some(r.valeur.arrivee) == LireHeure(Champ(rangee, 1)) && Some(r.valeur.depart) == LireHeure(Champ(rangee, 2))
      && Admis(voyages, now1, now2, r.valeur.voyage, r.valeur.arrivee, r.valeur.depart)
  {
    if |rangee| < 5 || LireHeure(Champ(rangee, 1)).None? || LireHeure(Champ(rangee, 2)).None? then Malformee
    else
      var arrivee := LireHeure(Champ(rangee, 1)).value;
      var depart := LireHeure(Champ(rangee, 2)).value;
      if !Admis(voyages, now1, now2, Champ(rangee, 0), arrivee, depart) then Ignoree
      else
        var station := Stoi(Champ(rangee, 3));
        var sequence := Stoi(Champ(rangee, 4));
        if station.None? || sequence.None? then Malformee
        else Retenue(Arret(EnNonSigne(station.value), arrivee, depart, sequence.value, Champ(rangee, 0)))
  }

  /**
    What `LireArret` decides: a row throws iff it is short, one of its times
    does not parse, or it is admitted and its stop id or sequence number is
    not a number; a kept stop-time takes its station from the stop id
    (converted to `unsigned int`) and its sequence number from field 4.
   */
  lemma LireArretSpec(voyages: set<string>, now1: Heure, now2: Heure, rangee: Rangee)
    ensures LireArret(voyages, now1, now2, rangee).Malformee? <==>
      || |rangee| < 5 || LireHeure(Champ(rangee, 1)).None? || LireHeure(Champ(rangee, 2)).None?
      || (&& Admis(voyages, now1, now2, Champ(rangee, 0), LireHeure(Champ(rangee, 1)).value, LireHeure(Champ(rangee, 2)).value)
          && (Stoi(Champ(rangee, 3)).None? || Stoi(Champ(rangee, 4)).None?))
    ensures LireArret(voyages, now1, now2, rangee).Retenue? ==>
      && 5 <= |rangee| && Stoi(Champ(rangee, 3)).Some? && Stoi(Champ(rangee, 4)).Some?
      && LireArret(voyages, now1, now2, rangee).valeur.station == EnNonSigne(Stoi(Champ(rangee, 3)).value)
      && LireArret(voyages, now1, now2, rangee).valeur.numeroSequence == Stoi(Champ(rangee, 4)).value
  {
  }

  /** The station `m_stations[s]` yields: the stored one, or a default one it inserts. */
  function Base(stations: map<u32, Station>, s: u32): Station
  {
    if s in stations then stations[s] else StationParDefaut
  }

  /** One admitted stop-time appended to its trip and to its station, and counted. */
  function Attacher(e: EtatArrets, a: Arret): EtatArrets
    requires a.voyage in e.voyages
  {
    var v := e.voyages[a.voyage];
    var s := Base(e.stations, a.station);
    EtatArrets(e.voyages[a.voyage := v.(arrets := v.arrets + [a])],
               e.stations[a.station := s.(arrets := s.arrets + [a])],
               e.nbArrets + 1)
  }

  /**
    One attachment appends the stop-time to its own trip and to its own
    station, created as a default station when missing, counts it, and
    changes no other trip or station.
   */
  lemma AttacherEffet(e: EtatArrets, a: Arret)
    requires a.voyage in e.voyages
    ensures Attacher(e, a).voyages.Keys == e.voyages.Keys
    ensures Attacher(e, a).voyages[a.voyage].arrets == e.voyages[a.voyage].arrets + [a]
    ensures forall t :: t in e.voyages && t != a.voyage ==> Attacher(e, a).voyages[t] == e.voyages[t]
    ensures Attacher(e, a).stations.Keys == e.stations.Keys + {a.station}
    ensures a.station in e.stations ==> Attacher(e, a).stations[a.station].arrets == e.stations[a.station].arrets + [a]
    ensures a.station !in e.stations ==> Attacher(e, a).stations[a.station] == StationParDefaut.(arrets := [a])
    ensures forall s :: s in e.stations && s != a.station ==> Attacher(e, a).stations[s] == e.stations[s]
    ensures Attacher(e, a).nbArrets == e.nbArrets + 1
  {
  }

  /** The read loop of `ajouterArretsDesVoyagesDeLaDate` on the rows after the header: stops at the first malformed row. */
  function IngererArrets(e: EtatArrets, now1: Heure, now2: Heure, rangees: seq<Rangee>): Bilan<EtatArrets>
    decreases |rangees|
  {
    if |rangees| == 0 then Bilan(e, Reussi)
    else match LireArret(e.voyages.Keys, now1, now2, rangees[0])
      case Malformee => Bilan(e, Echec(DonneeInvalide))
      case Ignoree => IngererArrets(e, now1, now2, rangees[1..])
      case Retenue(a) => IngererArrets(Attacher(e, a), now1, now2, rangees[1..])
  }

  /** The fold from row `i` on, unfolded once. */
  lemma IngererArretsPas(e: EtatArrets, now1: Heure, now2: Heure, rangees: seq<Rangee>, i: nat)
    requires i < |rangees|
    ensures IngererArrets(e, now1, now2, rangees[i..])
            == match LireArret(e.voyages.Keys, now1, now2, rangees[i])
               case Malformee => Bilan(e, Echec(DonneeInvalide))
               case Ignoree => IngererArrets(e, now1, now2, rangees[i + 1..])
               case Retenue(a) => IngererArrets(Attacher(e, a), now1, now2, rangees[i + 1..])
  {
    assert rangees[i..][0] == rangees[i] && rangees[i..][1..] == rangees[i + 1..];
  }

  /** The stop-times the rows admit, in row order, when no row is malformed; each has a loaded trip and lies in the window. */
  function ArretsAdmis(voyages: set<string>, now1: Heure, now2: Heure, rangees: seq<Rangee>): (r: Option<seq<Arret>>)
    ensures r.Some? ==> forall a :: a in r.value ==> Admis(voyages, now1, now2, a.voyage, a.arrivee, a.depart)
    decreases |rangees|
  {
    if |rangees| == 0 then Some([])
    else match (LireArret(voyages, now1, now2, rangees[0]), ArretsAdmis(voyages, now1, now2, rangees[1..]))
      case (Malformee, _) => None
      case (_, None) => None
      case (Ignoree, Some(adm)) => Some(adm)
      case (Retenue(a), Some(adm)) => Some([a] + adm)
  }

  /** The stop-times admitted by rows that parse, split after the first row. */
  lemma ArretsAdmisPremiere(voyages: set<string>, now1: Heure, now2: Heure, rangees: seq<Rangee>, adm: seq<Arret>)
    requires ArretsAdmis(voyages, now1, now2, rangees) == Some(adm)
    requires 0 < |rangees|
    ensures !LireArret(voyages, now1, now2, rangees[0]).Malformee?
    ensures ArretsAdmis(voyages, now1, now2, rangees[1..]).Some?
    ensures adm == if LireArret(voyages, now1, now2, rangees[0]).Retenue?
                   then [LireArret(voyages, now1, now2, rangees[0]).valeur] + ArretsAdmis(voyages, now1, now2, rangees[1..]).value
                   else ArretsAdmis(voyages, now1, now2, rangees[1..]).value
  {
  }

  /** An admitted stop-time comes from a row `LireArret` keeps. */
  lemma {:induction false} ArretAdmisProvenance(voyages: set<string>, now1: Heure, now2: Heure, rangees: seq<Rangee>, adm: seq<Arret>, a: Arret)
    requires ArretsAdmis(voyages, now1, now2, rangees) == Some(adm)
    requires a in adm
    ensures exists k :: 0 <= k < |rangees| && LireArret(voyages, now1, now2, rangees[k]) == Retenue(a)
    decreases |rangees|
  {
    ArretsAdmisPremiere(voyages, now1, now2, rangees, adm);
    if LireArret(voyages, now1, now2, rangees[0]) != Retenue(a) {
      ArretAdmisProvenance(voyages, now1, now2, rangees[1..], ArretsAdmis(voyages, now1, now2, rangees[1..]).value, a);
      var k :| 0 <= k < |rangees[1..]| && LireArret(voyages, now1, now2, rangees[1..][k]) == Retenue(a);
      assert rangees[1..][k] == rangees[k + 1];
    }
  }

  /** Every row `LireArret` keeps yields an admitted stop-time. */
  lemma {:induction false} ArretAdmisPresent(voyages: set<string>, now1: Heure, now2: Heure, rangees: seq<Rangee>, adm: seq<Arret>, k: nat, a: Arret)
    requires ArretsAdmis(voyages, now1, now2, rangees) == Some(adm)
    requires k < |rangees| && LireArret(voyages, now1, now2, rangees[k]) == Retenue(a)
    ensures a in adm
    decreases k, 1
  {
    if k == 0 {
      ArretsAdmisPremiere(voyages, now1, now2, rangees, adm);
      assert adm[0] == a;
    } else {
      ArretAdmisPresentApres(voyages, now1, now2, rangees, adm, k, a);
    }
  }

  /** The case of a row after the first: it is admitted among the rows after the first. */
  lemma {:induction false} ArretAdmisPresentApres(voyages: set<string>, now1: Heure, now2: Heure, rangees: seq<Rangee>, adm: seq<Arret>, k: nat, a: Arret)
    requires ArretsAdmis(voyages, now1, now2, rangees) == Some(adm)
    requires 0 < k < |rangees| && LireArret(voyages, now1, now2, rangees[k]) == Retenue(a)
    ensures a in adm
    decreases k, 0
  {
    ArretsAdmisPremiere(voyages, now1, now2, rangees, adm);
    RangeeDuReste(rangees, k);
    var reste := ArretsAdmis(voyages, now1, now2, rangees[1..]).value;
    ArretAdmisPresent(voyages, now1, now2, rangees[1..], reste, k - 1, a);
  }

  /**
    The admitted stop-times are exactly those of the rows `LireArret` keeps:
    each comes from such a row, and every such row is admitted.
   */
  lemma ArretsAdmisContenu(voyages: set<string>, now1: Heure, now2: Heure, rangees: seq<Rangee>, adm: seq<Arret>)
    requires ArretsAdmis(voyages, now1, now2, rangees) == Some(adm)
    ensures forall a :: a in adm <==> exists k :: 0 <= k < |rangees| && LireArret(voyages, now1, now2, rangees[k]) == Retenue(a)
  {
    forall a ensures a in adm <==> exists k :: 0 <= k < |rangees| && LireArret(voyages, now1, now2, rangees[k]) == Retenue(a) {
      if a in adm {
        ArretAdmisProvenance(voyages, now1, now2, rangees, adm, a);
      }
      if exists k :: 0 <= k < |rangees| && LireArret(voyages, now1, now2, rangees[k]) == Retenue(a) {
        var k :| 0 <= k < |rangees| && LireArret(voyages, now1, now2, rangees[k]) == Retenue(a);
        ArretAdmisPresent(voyages, now1, now2, rangees, adm, k, a);
      }
    }
  }

  /** The stop-times of `adm` attached one after the other. */
  function AttacherTous(e: EtatArrets, adm: seq<Arret>): EtatArrets
    requires forall a :: a in adm ==> a.voyage in e.voyages
    decreases |adm|
  {
    if |adm| == 0 then e
    else
      var e' := Attacher(e, adm[0]);
      assert e'.voyages.Keys == e.voyages.Keys;
      AttacherTous(e', adm[1..])
  }

  /** The stop-times of `adm` that belong to trip `t`, in order. */
  function DuVoyage(adm: seq<Arret>, t: string): seq<Arret>
  {
    if |adm| == 0 then [] else (if adm[0].voyage == t then [adm[0]] else []) + DuVoyage(adm[1..], t)
  }

  /** The stop-times of `adm` that stop at station `s`, in order. */
  function DeLaStation(adm: seq<Arret>, s: u32): seq<Arret>
  {
    if |adm| == 0 then [] else (if adm[0].station == s then [adm[0]] else []) + DeLaStation(adm[1..], s)
  }

  function StationsDe(adm: seq<Arret>): set<u32>
  {
    set a | a in adm :: a.station
  }

  /** `DuVoyage` holds exactly the stop-times of `adm` with trip `t`. */
  lemma {:induction false} DuVoyageContenu(adm: seq<Arret>, t: string)
    ensures forall a :: a in DuVoyage(adm, t) <==> a in adm && a.voyage == t
    decreases |adm|
  {
    if |adm| > 0 {
      DuVoyageContenu(adm[1..], t);
      assert adm == [adm[0]] + adm[1..];
    }
  }

  /** `DeLaStation` holds exactly the stop-times of `adm` at station `s`. */
  lemma {:induction false} DeLaStationContenu(adm: seq<Arret>, s: u32)
    ensures forall a :: a in DeLaStation(adm, s) <==> a in adm && a.station == s
    decreases |adm|
  {
    if |adm| > 0 {
      DeLaStationContenu(adm[1..], s);
      assert adm == [adm[0]] + adm[1..];
    }
  }

  /** The admitted stop-times are defined iff no row throws. */
  lemma {:induction false} ArretsAdmisToutes(voyages: set<string>, now1: Heure, now2: Heure, rangees: seq<Rangee>)
    ensures ArretsAdmis(voyages, now1, now2, rangees).Some? <==> forall k :: 0 <= k < |rangees| ==> !LireArret(voyages, now1, now2, rangees[k]).Malformee?
    decreases |rangees|
  {
    if |rangees| > 0 {
      ArretsAdmisToutes(voyages, now1, now2, rangees[1..]);
      assert forall k :: 0 < k < |rangees| ==> rangees[1..][k - 1] == rangees[k];
    }
  }

  /** The read loop succeeds iff no row is malformed; otherwise it throws. */
  lemma {:induction false} IngererArretsIssue(e: EtatArrets, now1: Heure, now2: Heure, rangees: seq<Rangee>)
    ensures IngererArrets(e, now1, now2, rangees).issue
            == if ArretsAdmis(e.voyages.Keys, now1, now2, rangees).Some? then Reussi else Echec(DonneeInvalide)
    decreases |rangees|
  {
    if |rangees| > 0 {
      match LireArret(e.voyages.Keys, now1, now2, rangees[0])
      case Malformee =>
      case Ignoree => IngererArretsIssue(e, now1, now2, rangees[1..]);
      case Retenue(a) =>
        assert Attacher(e, a).voyages.Keys == e.voyages.Keys;
        IngererArretsIssue(Attacher(e, a), now1, now2, rangees[1..]);
    }
  }

  /**
    Rejected rows change nothing: on rows that parse, the read loop leaves the
    state obtained by attaching the admitted stop-times, and only those, in row order.
   */
  lemma {:induction false} IngererArretsAdmis(e: EtatArrets, now1: Heure, now2: Heure, rangees: seq<Rangee>, adm: seq<Arret>)
    requires ArretsAdmis(e.voyages.Keys, now1, now2, rangees) == Some(adm)
    ensures IngererArrets(e, now1, now2, rangees).etat == AttacherTous(e, adm)
    decreases |rangees|
  {
    if |rangees| > 0 {
      var reste := ArretsAdmis(e.voyages.Keys, now1, now2, rangees[1..]).value;
      match LireArret(e.voyages.Keys, now1, now2, rangees[0])
      case Ignoree => IngererArretsAdmis(e, now1, now2, rangees[1..], reste);
      case Retenue(a) =>
        assert Attacher(e, a).voyages.Keys == e.voyages.Keys;
        IngererArretsAdmis(Attacher(e, a), now1, now2, rangees[1..], reste);
        assert adm[0] == a && adm[1..] == reste;
    }
  }

  /** Attaching stop-times keeps the set of trips and counts each stop-time exactly once. */
  lemma {:induction false} AttacherTousCompte(e: EtatArrets, adm: seq<Arret>)
    requires forall a :: a in adm ==> a.voyage in e.voyages
    ensures AttacherTous(e, adm).voyages.Keys == e.voyages.Keys
    ensures AttacherTous(e, adm).nbArrets == e.nbArrets + |adm|
    decreases |adm|
  {
    if |adm| > 0 {
      var e' := Attacher(e, adm[0]);
      assert e'.voyages.Keys == e.voyages.Keys;
      AttacherTousCompte(e', adm[1..]);
    }
  }

  /** Attaching stop-times appends to each loaded trip its own stop-times, in order. */
  lemma {:induction false} AttacherTousVoyages(e: EtatArrets, adm: seq<Arret>, t: string)
    requires forall a :: a in adm ==> a.voyage in e.voyages
    requires t in e.voyages
    ensures t in AttacherTous(e, adm).voyages
    ensures AttacherTous(e, adm).voyages[t] == e.voyages[t].(arrets := e.voyages[t].arrets + DuVoyage(adm, t))
    decreases |adm|
  {
    if |adm| > 0 {
      var a := adm[0];
      var e' := Attacher(e, a);
      assert e'.voyages.Keys == e.voyages.Keys;
      assert AttacherTous(e, adm) == AttacherTous(e', adm[1..]);
      AttacherTousVoyages(e', adm[1..], t);
      assert e'.voyages[t].arrets == e.voyages[t].arrets + (if a.voyage == t then [a] else []);
    }
  }

  /** Attaching stop-times adds the stations they name, known or not. */
  lemma {:induction false} AttacherTousStationsCles(e: EtatArrets, adm: seq<Arret>)
    requires forall a :: a in adm ==> a.voyage in e.voyages
    ensures AttacherTous(e, adm).stations.Keys == e.stations.Keys + StationsDe(adm)
    decreases |adm|
  {
    if |adm| > 0 {
      var a := adm[0];
      var e' := Attacher(e, a);
      assert e'.voyages.Keys == e.voyages.Keys;
      AttacherTousStationsCles(e', adm[1..]);
      assert StationsDe(adm) == {a.station} + StationsDe(adm[1..]) by {
        assert adm == [a] + adm[1..];
      }
    }
  }

  /** One stop-time is appended to its own station and to no other. */
  lemma BaseAttacher(e: EtatArrets, a: Arret, s: u32)
    requires a.voyage in e.voyages
    ensures Base(Attacher(e, a).stations, s) == Base(e.stations, s).(arrets := Base(e.stations, s).arrets + (if a.station == s then [a] else []))
  {
  }

  /**
    Attaching stop-times appends to each station its own stop-times in
    order; a station it creates starts as the default one.
   */
  lemma {:induction false} AttacherTousStations(e: EtatArrets, adm: seq<Arret>, s: u32)
    requires forall a :: a in adm ==> a.voyage in e.voyages
    ensures Base(AttacherTous(e, adm).stations, s) == Base(e.stations, s).(arrets := Base(e.stations, s).arrets + DeLaStation(adm, s))
    decreases |adm|
  {
    if |adm| > 0 {
      var a := adm[0];
      var e' := Attacher(e, a);
      assert e'.voyages.Keys == e.voyages.Keys;
      assert AttacherTous(e, adm) == AttacherTous(e', adm[1..]);
      AttacherTousStations(e', adm[1..], s);
      BaseAttacher(e, a, s);
    }
  }

  /** `m_voyages` after the first erase loop: exactly the trips with at least one stop-time, unchanged. */
  function SansVoyagesVides(voyages: map<string, Voyage>): (r: map<string, Voyage>)
    ensures forall t :: t in r <==> t in voyages && |voyages[t].arrets| > 0
    ensures forall t :: t in r ==> r[t] == voyages[t]
  {
    map t | t in voyages && |voyages[t].arrets| > 0 :: voyages[t]
  }

  /** `m_stations` after the second erase loop: exactly the stations with at least one stop-time, unchanged. */
  function SansStationsVides(stations: map<u32, Station>): (r: map<u32, Station>)
    ensures forall s :: s in r <==> s in stations && |stations[s].arrets| > 0
    ensures forall s :: s in r ==> r[s] == stations[s]
  {
    map s | s in stations && |stations[s].arrets| > 0 :: stations[s]
  }

  /**
    The trips after `ajouterArretsDesVoyagesDeLaDate` on rows that parse: the
    read loop succeeds and counts one per admitted stop-time, and a trip
    remains iff it was loaded and had or receives a stop-time.
   */
  lemma ElagageVoyages(e: EtatArrets, now1: Heure, now2: Heure, rangees: seq<Rangee>, adm: seq<Arret>)
    requires ArretsAdmis(e.voyages.Keys, now1, now2, rangees) == Some(adm)
    ensures IngererArrets(e, now1, now2, rangees).issue == Reussi
    ensures IngererArrets(e, now1, now2, rangees).etat.nbArrets == e.nbArrets + |adm|
    ensures forall t :: t in SansVoyagesVides(IngererArrets(e, now1, now2, rangees).etat.voyages) <==>
      t in e.voyages && (|e.voyages[t].arrets| > 0 || exists a :: a in adm && a.voyage == t)
  {
    IngererArretsIssue(e, now1, now2, rangees);
    IngererArretsAdmis(e, now1, now2, rangees, adm);
    AttacherTousCompte(e, adm);
    var r := AttacherTous(e, adm);
    forall t ensures t in SansVoyagesVides(r.voyages) <==>
      t in e.voyages && (|e.voyages[t].arrets| > 0 || exists a :: a in adm && a.voyage == t)
    {
      if t in e.voyages {
        AttacherTousVoyages(e, adm, t);
      }
      DuVoyageContenu(adm, t);
      if t in e.voyages && |DuVoyage(adm, t)| > 0 {
        assert DuVoyage(adm, t)[0] in DuVoyage(adm, t);
      }
    }
  }

  /**
    The stations after `ajouterArretsDesVoyagesDeLaDate` on rows that parse: a
    station remains iff it had a stop-time or receives one, whether or not it
    was loaded.
   */
  lemma ElagageStations(e: EtatArrets, now1: Heure, now2: Heure, rangees: seq<Rangee>, adm: seq<Arret>)
    requires ArretsAdmis(e.voyages.Keys, now1, now2, rangees) == Some(adm)
    ensures forall s :: s in SansStationsVides(IngererArrets(e, now1, now2, rangees).etat.stations) <==>
      (s in e.stations && |e.stations[s].arrets| > 0) || exists a :: a in adm && a.station == s
  {
    IngererArretsAdmis(e, now1, now2, rangees, adm);
    AttacherTousStationsCles(e, adm);
    var r := AttacherTous(e, adm);
    forall s ensures s in SansStationsVides(r.stations) <==>
      (s in e.stations && |e.stations[s].arrets| > 0) || exists a :: a in adm && a.station == s
    {
      AttacherTousStations(e, adm, s);
      DeLaStationContenu(adm, s);
      if |DeLaStation(adm, s)| > 0 {
        assert DeLaStation(adm, s)[0] in DeLaStation(adm, s);
      }
      if exists a :: a in adm && a.station == s {
        assert s in StationsDe(adm);
      }
    }
  }

  /**
    Every stop-time admitted by `ajouterArretsDesVoyagesDeLaDate` is attached
    to both its trip and its station, and the pruning keeps both.
   */
  lemma ArretAttacheAuxDeux(e: EtatArrets, now1: Heure, now2: Heure, rangees: seq<Rangee>, adm: seq<Arret>, a: Arret)
    requires ArretsAdmis(e.voyages.Keys, now1, now2, rangees) == Some(adm)
    requires a in adm
    ensures var vs := SansVoyagesVides(IngererArrets(e, now1, now2, rangees).etat.voyages);
      a.voyage in vs && a in vs[a.voyage].arrets
    ensures var ss := SansStationsVides(IngererArrets(e, now1, now2, rangees).etat.stations);
      a.station in ss && a in ss[a.station].arrets
  {
    IngererArretsAdmis(e, now1, now2, rangees, adm);
    AttacherTousVoyages(e, adm, a.voyage);
    AttacherTousStationsCles(e, adm);
    AttacherTousStations(e, adm, a.station);
    DuVoyageContenu(adm, a.voyage);
    DeLaStationContenu(adm, a.station);
    assert a.station in StationsDe(adm);
  }

  /**
    An admitted stop-time whose stop id names no loaded station creates that
    station: a default station holding exactly the stop-times that name it,
    which the pruning keeps.
   */
  lemma StationInconnueCreee(e: EtatArrets, now1: Heure, now2: Heure, rangees: seq<Rangee>, adm: seq<Arret>, a: Arret)
    requires ArretsAdmis(e.voyages.Keys, now1, now2, rangees) == Some(adm)
    requires a in adm && a.station !in e.stations
    ensures var ss := SansStationsVides(IngererArrets(e, now1, now2, rangees).etat.stations);
      a.station in ss && ss[a.station] == StationParDefaut.(arrets := DeLaStation(adm, a.station))
  {
    ArretAttacheAuxDeux(e, now1, now2, rangees, adm, a);
    IngererArretsAdmis(e, now1, now2, rangees, adm);
    AttacherTousStations(e, adm, a.station);
  }

  /** The state after one row that does not throw: the stop-time attached if admitted. */
  function Avancer(e: EtatArrets, now1: Heure, now2: Heure, rangee: Rangee): (r: EtatArrets)
    ensures r.voyages.Keys == e.voyages.Keys
  {
    match LireArret(e.voyages.Keys, now1, now2, rangee)
    case Retenue(a) => Attacher(e, a)
    case _ => e
  }

  /** A prefix of rows that do not throw, split after its first row: the rest of the prefix does not throw either. */
  lemma ArretsAdmisTete(e: EtatArrets, now1: Heure, now2: Heure, rangees: seq<Rangee>, k: nat)
    requires 0 < k < |rangees|
    requires ArretsAdmis(e.voyages.Keys, now1, now2, rangees[..k]).Some?
    ensures ArretsAdmis(Avancer(e, now1, now2, rangees[0]).voyages.Keys, now1, now2, rangees[1..][..k - 1]).Some?
    ensures LireArret(Avancer(e, now1, now2, rangees[0]).voyages.Keys, now1, now2, rangees[1..][k - 1]) == LireArret(e.voyages.Keys, now1, now2, rangees[k])
  {
    DebutDuReste(rangees, k);
    RangeeDuReste(rangees, k);
  }

  /** A first row that does not throw moves the read loop to the state `Avancer` gives. */
  lemma IngererArretsAvancer(e: EtatArrets, now1: Heure, now2: Heure, rangees: seq<Rangee>)
    requires 0 < |rangees|
    requires !LireArret(e.voyages.Keys, now1, now2, rangees[0]).Malformee?
    ensures IngererArrets(e, now1, now2, rangees) == IngererArrets(Avancer(e, now1, now2, rangees[0]), now1, now2, rangees[1..])
  {
  }

  /** The read loop over a prefix of rows that do not throw, and over all rows, split after the first row. */
  lemma IngererArretsTete(e: EtatArrets, now1: Heure, now2: Heure, rangees: seq<Rangee>, k: nat)
    requires 0 < k < |rangees|
    requires ArretsAdmis(e.voyages.Keys, now1, now2, rangees[..k]).Some?
    ensures IngererArrets(e, now1, now2, rangees[..k]) == IngererArrets(Avancer(e, now1, now2, rangees[0]), now1, now2, rangees[1..][..k - 1])
    ensures IngererArrets(e, now1, now2, rangees) == IngererArrets(Avancer(e, now1, now2, rangees[0]), now1, now2, rangees[1..])
  {
    DebutDuReste(rangees, k);
    IngererArretsAvancer(e, now1, now2, rangees[..k]);
    IngererArretsAvancer(e, now1, now2, rangees);
  }

  /** A malformed first row stops the read loop before anything is attached. */
  lemma IngererArretsEchecPremiere(e: EtatArrets, now1: Heure, now2: Heure, rangees: seq<Rangee>)
    requires 0 < |rangees|
    requires LireArret(e.voyages.Keys, now1, now2, rangees[0]).Malformee?
    ensures IngererArrets(e, now1, now2, rangees) == Bilan(IngererArrets(e, now1, now2, rangees[..0]).etat, Echec(DonneeInvalide))
  {
    assert rangees[..0] == [];
  }

  /**
    A malformed row stops the read loop: the stop-times of the rows before it
    stay attached and nothing after it is read.
   */
  lemma {:induction false} IngererArretsEchec(e: EtatArrets, now1: Heure, now2: Heure, rangees: seq<Rangee>, k: nat)
    requires k < |rangees|
    requires ArretsAdmis(e.voyages.Keys, now1, now2, rangees[..k]).Some?
    requires LireArret(e.voyages.Keys, now1, now2, rangees[k]).Malformee?
    ensures IngererArrets(e, now1, now2, rangees)
            == Bilan(IngererArrets(e, now1, now2, rangees[..k]).etat, Echec(DonneeInvalide))
    decreases k
  {
    if k == 0 {
      IngererArretsEchecPremiere(e, now1, now2, rangees);
    } else {
      ArretsAdmisTete(e, now1, now2, rangees, k);
      IngererArretsTete(e, now1, now2, rangees, k);
      IngererArretsEchec(Avancer(e, now1, now2, rangees[0]), now1, now2, rangees[1..], k - 1);
    }
  }
}
