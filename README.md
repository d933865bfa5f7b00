# A verified model of the GTFS loader `DonneesGTFS`

`DonneesGTFS` holds one snapshot of a public-transit feed in the GTFS format,
restricted to one service date and to a window of times `[now1, now2)`. Its six
loaders each read one comma-separated file, skip the header line, and fill one
or more of its catalogs:

- `ajouterLignes` stores the routes by id and by number;
- `ajouterStations` stores the stops by id;
- `ajouterServices` keeps the services added on the date (exception type `1`);
- `ajouterVoyagesDeLaDate` keeps the trips whose service is active;
- `ajouterArretsDesVoyagesDeLaDate` attaches the stop-times of loaded trips that
  lie in the window to their trip and their station, then removes the trips
  and the stations left with no stop-time;
- `ajouterTransferts` keeps the transfers between two present stations. It
  throws unless the stop-times have been loaded.

The model is organised as follows.

- **The class.** `Gtfs.DonneesGTFS` is a class whose fields are the catalogs.
  Each loader is a method over a file given as `Option<seq<Rangee>>`: `None`
  means the file does not open, and a row is a line already split on commas.
  The read loop is a `while` over the line index, skipping index 0, as in the
  code. It is proved equal to a pure fold (`ChargerLignes`, `ChargerStations`,
  `ChargerServices`, `ChargerVoyages`, `IngererArrets`, `ChargerTransferts`).
- **The folds.** Each fold reads its rows with a row decoder (`LireLigne`,
  `LireStation`, ...). It stops at the first row that throws (`stoi` on a
  non-number, a missing field, `substr` past the end), and keeps what the rows
  before it had stored. Nothing is rolled back, as with an exception
  mid-loop.
- **The lemmas.** Lemmas about each fold say:
  - when the load succeeds (iff no row throws);
  - what the catalog then is, in closed form (an upsert by id with the last
    row winning, a set union, an append);
  - that a malformed row leaves exactly the state of the rows before it.
- **Coherence.** `Gtfs.DonneesGTFS.Coherent` is an invariant every loader
  preserves. Each route is indexed under its own id and number. Each trip has
  an active service. Each stop-time is held only by its own trip and its own
  station, and lies in the window.

The model follows the code in three places where the code does something
easy to miss:

- `ajouterServices` does not erase the quote characters, unlike the other
  loaders (`DonneesGTFS.cpp:152-153`).
- `ajouterTransferts` reports a file that does not open before it checks that
  the stop-times are loaded (`DonneesGTFS.cpp:98-105`).
- A stop-time whose stop id names no loaded station creates that station
  through `m_stations[...]` (`DonneesGTFS.cpp:246`). The model proves this
  station is then kept by the pruning (`Arrets.StationInconnueCreee`).

Library calls are stand-ins in module `Lecture`:

- `std::stoi`: leading white space, an optional sign, the longest run of
  digits, failing with no digit or outside `int`;
- `std::string::substr`;
- the `int` to `unsigned int` conversion, which wraps modulo 2^32.

## Model

| member | source | states |
|---|---|---|
| Lecture.Stoi | DonneesGTFS.cpp:30 | a value `stoi` returns lies in the range of `int` |
| Lecture.StoiChiffres | DonneesGTFS.cpp:30 | `stoi` of a run of digits followed by a non-digit (or nothing) is the number the digits denote, when it fits an `int` |
| Lecture.StoiMoins | DonneesGTFS.cpp:30 | after a minus sign, `stoi` reads the digits that follow and gives minus their value, or throws when that is below `INT_MIN` |
| Lecture.StoiPlus | DonneesGTFS.cpp:30 | after a plus sign, `stoi` reads the digits that follow as their plain value, or throws when that is above `INT_MAX` |
| Lecture.StoiTropGrand | DonneesGTFS.cpp:30 | `stoi` throws on a run of digits whose value is above `INT_MAX` |
| Lecture.StoiVide | DonneesGTFS.cpp:30 | `stoi` throws on the empty string |
| Lecture.StoiSansChiffre | DonneesGTFS.cpp:30 | `stoi` throws on text starting with a character that is neither white space, a sign nor a digit |
| Lecture.StoiSigneSansChiffre | DonneesGTFS.cpp:30 | `stoi` throws on a sign followed by no digit |
| Lecture.StoiEspace | DonneesGTFS.cpp:30 | `stoi` skips leading white space |
| Lecture.ValeurDecimaleBornee | DonneesGTFS.cpp:158-160 | `n` digits denote a number below 10^n, so the date and time fields always fit an `int` |
| Lecture.SousChaineEntiere | DonneesGTFS.cpp:158-160 | cutting up to four digits at a fixed position with `substr` and reading them with `stoi` gives the number they denote |
| Lecture.NbChiffresInitiauxPrefixe | DonneesGTFS.cpp:30 | the digit run `stoi` reads of digits followed by a non-digit is exactly those digits |
| Lecture.NbChiffresInitiaux | DonneesGTFS.cpp:30 | the digit run `stoi` reads stops at the first non-digit |
| Lecture.NbChiffresInitiauxChiffres | DonneesGTFS.cpp:30 | every character of that run is a digit, so it is the longest run of digits |
| Lecture.SousChaine | DonneesGTFS.cpp:158-160 | `substr` fails iff the position is past the end; otherwise it gives a prefix of the rest of at most `n` characters |
| Lecture.SousChaineLongueur | DonneesGTFS.cpp:158-160 | from a position within the string, `substr(pos, n)` is exactly the `n` characters from `pos`, or all of them to the end when fewer are left |
| Lecture.EnNonSigne | DonneesGTFS.cpp:115-117 | the conversion to `unsigned int` keeps a value in range and adds 2^32 to a negative `int` |
| Lecture.Donnees | DonneesGTFS.cpp:22-25 | the loop skips the header: the rows read are the file's lines from the second on, in order |
| Lecture.SansGuillemetsSansGuillemet | DonneesGTFS.cpp:26 | no quote character is left in a field after the erase |
| Lecture.SansGuillemetsIdentite | DonneesGTFS.cpp:26 | the erase leaves a field with no quote character unchanged |
| Lecture.SansGuillemetsConcat | DonneesGTFS.cpp:26 | the erase works character by character: erasing from a concatenation is concatenating the erased parts |
| Lecture.SansGuillemetsCaractere | DonneesGTFS.cpp:26 | a single character is removed iff it is a quote |
| Lignes.LireLigne | DonneesGTFS.cpp:30-36 | a route row throws iff it has fewer than eight fields or its id is not a number; otherwise the route has the id `stoi` reads from field 0, the number of field 2, the description of field 4 and the category of the colour in field 7 |
| Lignes.LignesLuesToutes | DonneesGTFS.cpp:22-44 | the routes of the rows are read iff every row is well formed |
| Lignes.InsererEffet | DonneesGTFS.cpp:38-39 | storing a route writes it under its id, leaving every other id, and appends it to the routes under its number alone |
| Lignes.ChargerLignesInserees | DonneesGTFS.cpp:22-44 | on well-formed rows the load succeeds and stores the routes read, one after the other in row order |
| Lignes.InsererTousParNumero | DonneesGTFS.cpp:39 | storing routes one after the other appends, under each number, exactly the routes carrying it, in order |
| Lignes.ChargerLignesIssue | DonneesGTFS.cpp:22-44 | the routes file loads iff every row is well formed |
| Lignes.ChargerLignesParId | DonneesGTFS.cpp:38 | `m_lignes` is the old map with each route written under its id in row order, the last row for an id winning |
| Lignes.ChargerLignesParNumero | DonneesGTFS.cpp:39 | under each number, `m_lignes_par_numero` holds its old routes followed by every new route with that number, duplicates included |
| Lignes.ChargerLignesEchec | DonneesGTFS.cpp:22-44 | a malformed row stops the load: the routes of earlier rows stay stored and no later row is read |
| Tables.DernierEcritGagne | DonneesGTFS.cpp:38 | after writes `m[k] = v` in order, the keys are the old keys plus the written ones; an unwritten key keeps its value; each key holds its last write |
| Stations.LireStation | DonneesGTFS.cpp:67-74 | a stop row throws iff it has fewer than five fields or its id is not a number; otherwise the station has field 0's number converted to `unsigned int` as id, field 1 as name, field 2 as description, fields 3 and 4 as coordinates, and no stop-time |
| Stations.StationsLuesToutes | DonneesGTFS.cpp:59-81 | the stations of the rows are read iff every row is well formed |
| Stations.ChargerStationsIssue | DonneesGTFS.cpp:59-81 | the stops file loads iff every row is well formed |
| Stations.ChargerStationsParId | DonneesGTFS.cpp:76 | `m_stations` is the old map with each station written under its id in row order, the last row winning; the new stations hold no stop-time |
| Stations.ChargerStationsEchec | DonneesGTFS.cpp:59-81 | a malformed row stops the load and keeps the stations of earlier rows |
| Services.LireDateChiffres | DonneesGTFS.cpp:158-162 | a date field whose first eight characters are digits reads as the year of characters 0-3, the month of 4-5 and the day of 6-7 |
| Services.LireDateTexte | DonneesGTFS.cpp:158-162 | `"YYYYMMDD"` reads as year `YYYY`, month `MM`, day `DD` |
| Services.LireDateCourte | DonneesGTFS.cpp:158-162 | a date field shorter than seven characters throws |
| Services.LireService | DonneesGTFS.cpp:155-166 | a calendar row throws iff it has fewer than three fields or its date does not parse; it adds its service iff the type is exactly `1` and the date is the configured one |
| Services.ChargerServicesCroit | DonneesGTFS.cpp:164-166 | loading the calendar never removes a service |
| Services.ChargerServicesIssue | DonneesGTFS.cpp:149-170 | the calendar loads iff every row parses |
| Services.ChargerServicesOrigine | DonneesGTFS.cpp:164-166 | a service that becomes active was added by some row on the configured date |
| Services.ChargerServicesAjoute | DonneesGTFS.cpp:164-166 | on a successful load, every service a row adds on the configured date is active afterwards |
| Services.ChargerServicesSpec | DonneesGTFS.cpp:149-170 | the calendar loads iff every row parses, and then a service is active iff it was before or some row adds it on the date |
| Services.ChargerServicesEchec | DonneesGTFS.cpp:149-170 | a malformed row stops the load and keeps the services of earlier rows |
| Voyages.LireVoyage | DonneesGTFS.cpp:192-199 | a trip row is skipped iff its service is not active; with an active service it throws iff it has fewer than four fields or its route id is not a number; a kept trip has field 2 as id, the route `stoi` reads from field 0, field 1 as its active service, field 3 as destination and no stop-time |
| Voyages.VoyagesRetenus | DonneesGTFS.cpp:196-199 | every kept trip has an active service and no stop-time |
| Voyages.VoyagesRetenusToutes | DonneesGTFS.cpp:188-203 | the kept trips are defined iff no row throws |
| Voyages.ChargerVoyagesIssue | DonneesGTFS.cpp:188-203 | the trips file loads iff no row throws |
| Voyages.ChargerVoyagesSpec | DonneesGTFS.cpp:199 | `m_voyages` is the old map with each kept trip written under its id in row order, the last row winning |
| Voyages.VoyageRetenuProvenance | DonneesGTFS.cpp:196-199 | every kept trip comes from a row whose service is active |
| Voyages.VoyageRetenuPresent | DonneesGTFS.cpp:196-199 | every row whose service is active yields a kept trip |
| Voyages.VoyagesRetenusContenu | DonneesGTFS.cpp:196-199 | the kept trips are exactly those of the rows whose service is active |
| Voyages.ChargerVoyagesEchec | DonneesGTFS.cpp:188-203 | a malformed row stops the load and keeps the trips of earlier rows |
| Arrets.LireHeureChiffres | DonneesGTFS.cpp:239-240 | a time field with digits at positions 0-1, 3-4 and 6-7 reads as the hours, minutes and seconds they denote |
| Arrets.LireHeureTexte | DonneesGTFS.cpp:239-240 | `"HH:MM:SS"` reads as `Heure(HH, MM, SS)` |
| Arrets.LireHeureCourte | DonneesGTFS.cpp:239-240 | a time field shorter than seven characters throws |
| Arrets.DansFenetreBornes | DonneesGTFS.cpp:242 | the window is half-open: arriving exactly at `now2` is out, leaving exactly at `now1` is in |
| Arrets.AdmisElargi | DonneesGTFS.cpp:242 | more loaded trips or a wider window admit every stop-time admitted before |
| Arrets.AttacherEffet | DonneesGTFS.cpp:245-247 | one attachment appends the stop-time to its own trip and to its own station, which it creates as a default station when missing, counts it once, and changes no other trip or station |
| Arrets.LireArret | DonneesGTFS.cpp:233-243 | a stop-time row is skipped iff it has five fields and two readable times but its trip is not loaded or it lies outside `[now1, now2)`; a kept stop-time carries the row's trip and times and is admitted |
| Arrets.LireArretSpec | DonneesGTFS.cpp:233-243 | a stop-time row throws iff it has fewer than five fields, one of its times does not parse, or it is admitted and its stop id or sequence number is not a number; a kept stop-time has field 3's number converted to `unsigned int` as station and field 4's number as sequence number |
| Arrets.ArretsAdmis | DonneesGTFS.cpp:242 | every admitted stop-time has a loaded trip and lies in the window |
| Arrets.ArretAdmisProvenance | DonneesGTFS.cpp:242-248 | every admitted stop-time comes from a row that keeps it |
| Arrets.ArretAdmisPresent | DonneesGTFS.cpp:242-248 | every row that keeps a stop-time contributes it to the admitted ones |
| Arrets.ArretsAdmisContenu | DonneesGTFS.cpp:242-248 | the admitted stop-times are exactly those the rows keep |
| Arrets.ArretsAdmisToutes | DonneesGTFS.cpp:225-252 | the admitted stop-times are defined iff no row throws |
| Arrets.IngererArretsIssue | DonneesGTFS.cpp:225-252 | the stop-times file loads iff no row throws |
| Arrets.IngererArretsAdmis | DonneesGTFS.cpp:242-248 | a skipped row changes nothing: the state is that of attaching the admitted stop-times, and only those, in row order |
| Arrets.AttacherTousCompte | DonneesGTFS.cpp:245-247 | attaching keeps the set of trips and counts each admitted stop-time once in `m_nbArrets` |
| Arrets.AttacherTousVoyages | DonneesGTFS.cpp:245 | each loaded trip receives exactly its own admitted stop-times, appended in row order |
| Arrets.AttacherTousStationsCles | DonneesGTFS.cpp:246 | the stations afterwards are the old ones plus every station an admitted stop-time names |
| Arrets.AttacherTousStations | DonneesGTFS.cpp:246 | each station receives exactly its own admitted stop-times in row order, a new one starting as a default station |
| Arrets.SansVoyagesVides | DonneesGTFS.cpp:254-259 | the first erase loop leaves exactly the trips with a stop-time, unchanged |
| Arrets.SansStationsVides | DonneesGTFS.cpp:261-266 | the second erase loop leaves exactly the stations with a stop-time, unchanged |
| Arrets.ElagageVoyages | DonneesGTFS.cpp:242-259 | on rows that parse, the load succeeds, counts one per admitted stop-time, and keeps a trip iff it was loaded and had or receives a stop-time |
| Arrets.ElagageStations | DonneesGTFS.cpp:242-266 | on rows that parse, a station remains iff it had a stop-time or receives one, loaded before or not |
| Arrets.ArretAttacheAuxDeux | DonneesGTFS.cpp:242-266 | every admitted stop-time ends up in both its trip and its station, and the pruning keeps both |
| Arrets.StationInconnueCreee | DonneesGTFS.cpp:246 | a stop id that names no loaded station creates a default station holding exactly the stop-times naming it, and the pruning keeps it |
| Arrets.IngererArretsEchec | DonneesGTFS.cpp:225-252 | a malformed row stops the read loop: the stop-times of earlier rows stay attached and no later row is read |
| Transferts.DureeMinimale | DonneesGTFS.cpp:120-122 | a duration of 0 is stored as exactly 1, and any other one is kept as read |
| Transferts.LireTransfert | DonneesGTFS.cpp:119-126 | a kept transfer joins two present stations and lasts at least one second |
| Transferts.LireTransfertSpec | DonneesGTFS.cpp:113-126 | a transfer row throws iff it is short or one of its three numeric fields is not a number; one that parses is kept iff both stations are present; a kept transfer goes from field 0's number to field 1's number, both converted to `unsigned int`, with the duration field 3's number gives |
| Transferts.TransfertsRetenus | DonneesGTFS.cpp:119-124 | every kept transfer joins two present stations and lasts at least one second |
| Transferts.TransfertsRetenusToutes | DonneesGTFS.cpp:107-131 | the kept transfers are defined iff no row throws |
| Transferts.ChargerTransfertsIssue | DonneesGTFS.cpp:107-131 | the transfers file loads iff no row throws |
| Transferts.ChargerTransfertsSpec | DonneesGTFS.cpp:124-125 | the kept transfers are appended in row order, and their origins are added to `m_stationsDeTransfert` |
| Transferts.TransfertRetenuProvenance | DonneesGTFS.cpp:119-126 | every kept transfer comes from a row whose two stations are present |
| Transferts.TransfertRetenuPresent | DonneesGTFS.cpp:119-126 | every row whose two stations are present yields a kept transfer |
| Transferts.TransfertsRetenusContenu | DonneesGTFS.cpp:119-126 | the kept transfers are exactly those of the rows whose two stations are present |
| Transferts.ChargerTransfertsEchec | DonneesGTFS.cpp:107-131 | a malformed row stops the load and keeps the transfers of earlier rows |
| Coherence.ChargerLignesRangees | DonneesGTFS.cpp:38-39 | loading routes keeps each route under its own id and its own number |
| Coherence.ChargerStationsRangees | DonneesGTFS.cpp:76 | loading stops keeps each stop-time of a station its own and in the window |
| Coherence.ServicesEtendus | DonneesGTFS.cpp:165 | adding services keeps every trip's service active |
| Coherence.ChargerVoyagesRanges | DonneesGTFS.cpp:196-199 | loading trips keeps each trip under its own id with an active service |
| Coherence.AttacherRange | DonneesGTFS.cpp:245-246 | attaching one admitted stop-time keeps trips and stations coherent |
| Coherence.IngererArretsRanges | DonneesGTFS.cpp:242-248 | the stop-time read loop keeps trips and stations coherent, up to the row that throws |
| Coherence.ElagageRange | DonneesGTFS.cpp:254-266 | removing the empty trips and stations keeps them coherent |
| Gtfs.DonneesGTFS.AjouterLignes | DonneesGTFS.cpp:13-45 | an unreadable file throws and changes nothing; otherwise both route indexes end as the fold over the rows after the header; coherence is preserved |
| Gtfs.DonneesGTFS.LireLesLignes | DonneesGTFS.cpp:22-44 | the read loop leaves the state and outcome of the route fold over the rows after the header |
| Gtfs.DonneesGTFS.AjouterStations | DonneesGTFS.cpp:50-82 | an unreadable file throws and changes nothing; otherwise `m_stations` ends as the stop fold; coherence is preserved |
| Gtfs.DonneesGTFS.LireLesStations | DonneesGTFS.cpp:59-81 | the read loop leaves the state and outcome of the stop fold |
| Gtfs.DonneesGTFS.AjouterServices | DonneesGTFS.cpp:139-172 | an unreadable file throws and changes nothing; otherwise `m_services` ends as the calendar fold on the configured date; coherence is preserved |
| Gtfs.DonneesGTFS.LireLesServices | DonneesGTFS.cpp:149-170 | the read loop leaves the state and outcome of the calendar fold |
| Gtfs.DonneesGTFS.AjouterVoyagesDeLaDate | DonneesGTFS.cpp:178-204 | an unreadable file throws and changes nothing; otherwise `m_voyages` ends as the trip fold over the active services; coherence is preserved |
| Gtfs.DonneesGTFS.LireLesVoyages | DonneesGTFS.cpp:188-203 | the read loop leaves the state and outcome of the trip fold |
| Gtfs.DonneesGTFS.AjouterArretsDesVoyagesDeLaDate | DonneesGTFS.cpp:213-269 | an unreadable file throws and changes nothing. A malformed row throws after the read loop's attachments, with no pruning and the flag unchanged. Otherwise the empty trips and stations are removed, every remaining trip and station holds a stop-time, and the flag is set. Coherence is preserved |
| Gtfs.DonneesGTFS.LireLesArrets | DonneesGTFS.cpp:225-252 | the read loop leaves the trips, stations, count and outcome of the stop-time fold |
| Gtfs.DonneesGTFS.AttacherArret | DonneesGTFS.cpp:245-247 | one stop-time is appended to its trip and its station, the station created when absent, and counted |
| Gtfs.DonneesGTFS.RetirerVoyagesVides | DonneesGTFS.cpp:254-259 | iterating over a copy, the loop erases exactly the trips with no stop-time |
| Gtfs.DonneesGTFS.RetirerStationsVides | DonneesGTFS.cpp:261-266 | iterating over a copy, the loop erases exactly the stations with no stop-time |
| Gtfs.DonneesGTFS.AjouterTransferts | DonneesGTFS.cpp:92-133 | an unreadable file throws first, then missing stop-times throw, both changing nothing; otherwise the transfers and their origins end as the transfer fold over the present stations |
| Gtfs.DonneesGTFS.LireLesTransferts | DonneesGTFS.cpp:107-131 | the read loop leaves the transfers, origins and outcome of the transfer fold |

## Left out

- File access (`ifstream`, `getline`) is replaced by the file's lines given as a parameter. A file that fails to open is `None`.
- `string_to_vector` is not part of this model. Each row is given already split on commas.
- The quote erase is applied to each field, not to the whole line before splitting. A quote is not a comma, so the fields are the same.
- Stations.LireStation: does not model `stod` on the latitude and longitude. They are kept as text, so a stop row with a non-numeric coordinate is kept where the code throws (floating point is outside the model).
- `Ligne::couleurToCategorie` is in another file and is not part of this model. It is the function parameter `categorie`, and `CategorieBus` is an opaque type.
- The classes `Ligne`, `Station`, `Voyage`, `Arret`, `Heure`, `Date` and the header `DonneesGTFS.h` are not part of this model. The classes become datatypes with the fields the loaders set.
- `Heure`'s `<` and `>=` are modelled as a comparison of total seconds.
- The default `Station` that `m_stations[id]` creates is modelled with id 0, empty text and no stop-time.
- Gtfs.DonneesGTFS.constructor: the constructor is declared in the header, which is not part of this model. The model starts from empty catalogs with the date and window it is given.
- Gtfs.DonneesGTFS.AttacherArret: `m_nbArrets` is an unbounded count, with no wrap-around of its C++ integer type.
- `Voyage::ajouterArret` and `Station::addArret` are not part of this model. Stop-times are appended in row order, so any reordering they do (by sequence number or by time) is not captured.
- The `shared_ptr` shared by a trip and a station is modelled as the same immutable value in both, without aliasing.
- `throw logic_error` and `throw new logic_error` are both modelled as a failed `Issue`. The messages and the difference in what is thrown are not modelled.
- The pruning loops visit the keys in an arbitrary order rather than the map's order. Their result does not depend on the order.
