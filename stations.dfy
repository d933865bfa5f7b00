/** The stop catalog: `ajouterStations` as a fold over the rows of the stops file. */
module Stations {
  import opened Lecture
  import opened Modele
  import opened Tables

  /**
    One row of the stops file: id in field 0, name in 1, description in 2,
    latitude in 3, longitude in 4. The row throws when it has fewer than five
    fields or its id is not a number. A new station has no stop-time.
   */
  function LireStation(rangee: Rangee): (r: Option<Station>)
    ensures r.Some? <==> 5 <= |rangee| && Stoi(Champ(rangee, 0)).Some?
    ensures r.Some? ==> r.value == Station(EnNonSigne(Stoi(Champ(rangee, 0)).value), Champ(rangee, 1), Champ(rangee, 2),
                                          Coordonnees(Champ(rangee, 3), Champ(rangee, 4)), [])
  {
    if |rangee| < 5 then None
    else match Stoi(Champ(rangee, 0))
      case None => None
      case Some(id) => Some(Station(EnNonSigne(id), Champ(rangee, 1), Champ(rangee, 2), Coordonnees(Champ(rangee, 3), Champ(rangee, 4)), []))
  }

  /** `ajouterStations` on the rows after the header: stops at the first malformed row. */
  function ChargerStations(stations: map<u32, Station>, rangees: seq<Rangee>): Bilan<map<u32, Station>>
    decreases |rangees|
  {
    if |rangees| == 0 then Bilan(stations, Reussi)
    else match LireStation(rangees[0])
      case None => Bilan(stations, Echec(DonneeInvalide))
      case Some(s) => ChargerStations(stations[s.id := s], rangees[1..])
  }

  /** The fold from row `i` on, unfolded once. */
  lemma ChargerStationsPas(stations: map<u32, Station>, rangees: seq<Rangee>, i: nat)
    requires i < |rangees|
    ensures ChargerStations(stations, rangees[i..])
            == match LireStation(rangees[i])
               case None => Bilan(stations, Echec(DonneeInvalide))
               case Some(s) => ChargerStations(stations[s.id := s], rangees[i + 1..])
  {
    assert rangees[i..][0] == rangees[i] && rangees[i..][1..] == rangees[i + 1..];
  }

  /** The stations of the rows, in order, when every row is well formed. */
  function StationsLues(rangees: seq<Rangee>): Option<seq<Station>>
    decreases |rangees|
  {
    if |rangees| == 0 then Some([])
    else match (LireStation(rangees[0]), StationsLues(rangees[1..]))
      case (Some(s), Some(ss)) => Some([s] + ss)
      case _ => None
  }

  /** The key a station is stored under in `m_stations`: its id. */
  function IdStation(x: Station): u32
  {
    x.id
  }

  /** The stations of the rows are read iff every row is well formed. */
  lemma {:induction false} StationsLuesToutes(rangees: seq<Rangee>)
    ensures StationsLues(rangees).Some? <==> forall k :: 0 <= k < |rangees| ==> LireStation(rangees[k]).Some?
    decreases |rangees|
  {
    if |rangees| > 0 {
      StationsLuesToutes(rangees[1..]);
      assert forall k :: 0 < k < |rangees| ==> rangees[1..][k - 1] == rangees[k];
    }
  }

  /** The stops file loads iff every row is well formed; otherwise it throws. */
  lemma {:induction false} ChargerStationsIssue(stations: map<u32, Station>, rangees: seq<Rangee>)
    ensures ChargerStations(stations, rangees).issue == if StationsLues(rangees).Some? then Reussi else Echec(DonneeInvalide)
    decreases |rangees|
  {
    if |rangees| > 0 && LireStation(rangees[0]).Some? {
      var s := LireStation(rangees[0]).value;
      ChargerStationsIssue(stations[s.id := s], rangees[1..]);
    }
  }

  /**
    On well-formed rows, `m_stations` is the old map upserted with the
    stations by id, in row order: the last row with an id wins
    (`Tables.DernierEcritGagne`), and every station it writes has no stop-time.
   */
  lemma {:induction false} ChargerStationsParId(stations: map<u32, Station>, rangees: seq<Rangee>, ss: seq<Station>)
    requires StationsLues(rangees) == Some(ss)
    ensures ChargerStations(stations, rangees).etat == Upserts(stations, ParId(ss, IdStation))
    ensures forall i :: 0 <= i < |ss| ==> ss[i].arrets == []
    decreases |rangees|
  {
    if |rangees| > 0 {
      var s := LireStation(rangees[0]).value;
      var reste := StationsLues(rangees[1..]).value;
      ChargerStationsParId(stations[s.id := s], rangees[1..], reste);
      assert ss == [s] + reste;
      assert ParId(ss, IdStation) == [(s.id, s)] + ParId(reste, IdStation);
    }
  }

  /**
    A malformed row stops the load: the stations of the rows before it stay
    stored and nothing after it is read.
   */
  lemma {:induction false} ChargerStationsEchec(stations: map<u32, Station>, rangees: seq<Rangee>, k: nat)
    requires k < |rangees|
    requires StationsLues(rangees[..k]).Some?
    requires LireStation(rangees[k]).None?
    ensures ChargerStations(stations, rangees) == Bilan(ChargerStations(stations, rangees[..k]).etat, Echec(DonneeInvalide))
    decreases k
  {
    if k > 0 {
      assert rangees[..k][0] == rangees[0];
      assert rangees[..k][1..] == rangees[1..][..k - 1];
      var s := LireStation(rangees[0]).value;
      ChargerStationsEchec(stations[s.id := s], rangees[1..], k - 1);
    }
  }
}
