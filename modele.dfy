/**
  The records of the snapshot (routes, stations, trips, stop-times,
  transfers), the configured values (a date, times of day) and the outcome
  of a loader.
 */
module Modele {
  import opened Lecture

  /** The bus category `Ligne::couleurToCategorie` derives from a colour code; its values are not part of this model. */
  type CategorieBus(==)

  /** A calendar day, compared for equality only. */
  datatype Date = Date(annee: u32, mois: u32, jour: u32)

  /** A time of day; the hour may exceed 23 for service after midnight. */
  datatype Heure = Heure(heures: int, minutes: int, secondes: int)
  {
    function EnSecondes(): int
    {
      heures * 3600 + minutes * 60 + secondes
    }
  }

  /** `a < b` on times of day. */
  predicate Avant(a: Heure, b: Heure)
  {
    a.EnSecondes() < b.EnSecondes()
  }

  /** Latitude and longitude, kept as the text of the feed. */
  datatype Coordonnees = Coordonnees(latitude: string, longitude: string)

  /** A route. */
  datatype Ligne = Ligne(id: int, numero: string, description: string, categorie: CategorieBus)

  /** A stop-time: one visit of a trip to a station. Never changed once created. */
  datatype Arret = Arret(station: u32, arrivee: Heure, depart: Heure, numeroSequence: int, voyage: string)

  /** A station (a stop) and the stop-times attached to it. */
  datatype Station = Station(id: u32, nom: string, description: string, coordonnees: Coordonnees, arrets: seq<Arret>)

  /** A trip and the stop-times attached to it. */
  datatype Voyage = Voyage(id: string, ligne: int, service: string, destination: string, arrets: seq<Arret>)

  /** A transfer allowance from one station to another, in seconds. */
  datatype Transfert = Transfert(origine: u32, destination: u32, duree: u32)

  /**
    The value `m_stations[id]` inserts for an id it does not hold: a station
    built by the default constructor, with no stop-time.
   */
  const StationParDefaut: Station := Station(0, "", "", Coordonnees("", ""), [])

  /** What a loader throws: the file did not open, a row is malformed, or transfers came before the stop-times. */
  datatype Erreur = FichierIllisible | DonneeInvalide | ArretsAbsents

  datatype Issue = Reussi | Echec(erreur: Erreur)

  /** The state a loader leaves behind, and how it ended. */
  datatype Bilan<S> = Bilan(etat: S, issue: Issue)

  /** What a filtering loader makes of one row: it throws, it skips the row, or it keeps a record. */
  datatype Lu<T> = Malformee | Ignoree | Retenue(valeur: T)
}
