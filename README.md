# Fantasy Premier League ETL — a verified model of the extract, transform and load stages

This project models the ETL pipeline that copies Fantasy Premier League data into a MySQL warehouse. It has three stages:

- **Extract.** It builds the list of API endpoints, fetches each one and stores the JSON document in S3 under `{date}/{endpoint}.json`.
- **Transform.** Four mappers read the raw documents and build `fact_players`, `dim_players`, `dim_teams` and `dim_fixtures`. An orchestrator writes each table to S3 as `s3://{bucket}/{date}/{table}.parquet`.
- **Load.** It reads the four parquet files back in a fixed order. For each table it truncates the table, inserts the rows and commits.

An older extract script is modelled beside the Airflow one. It has 80 endpoints and swallows HTTP errors.

How the pandas code is modelled:

- A raw JSON file is a `Json` value.
- A DataFrame is a `Frame`: a set of column names and a sequence of records. A record maps a column to a `Value`, and a column missing from a record reads as `Null`.
- An output table is a `Table`: an ordered column list and rows.
- Every pandas step is a plain relational function in `Frames`: rename, select, cross join, left join, concat, `fillna` and `dropna`.
- Each mapper is proved equal to a reference definition written directly over the raw records. Examples are `ExpectedFacts` and `ExpectedFixtures`.
- The orchestrators are methods over abstract stores:
  - `Storage.ObjectStore` is the JSON bucket.
  - `Transform.ParquetStore` is the parquet sink. Its writes are recorded in a ghost sequence.
  - `Load.Warehouse` is the database. Its statements are recorded in a ghost sequence.
- Each orchestrator is proved against a specification function: `Extract.SaveRun`, `Transform.Sequenced`/`Persisted` and `Load.Loaded`.
- The current date is a parameter, not `datetime.now()`.

Modules:

| module | file | models |
|---|---|---|
| `Results` | results.dfy | the success-or-exception result type and the outcome of a procedure |
| `Text` | text.dfy | digits, zero padding, `join`, string repetition and slicing |
| `Calendar` | calendar.dfy | `%Y-%m-%d` and `%H:%M:%S`, with their parsers |
| `Documents` | documents.dfy | JSON values |
| `Helpers` | helpers.dfy | `generate_filename` |
| `Storage` | storage.dfy | the S3 JSON store |
| `Extract` | extract.dfy | `airflow_home/dags/scripts/extract.py` |
| `LegacyExtract` | legacy_extract.dfy | `scripts/extract.py` |
| `Frames` | frames.dfy | the pandas operations |
| `Mappers` | mappers.dfy | raw-file access, errors, `transform_dim_players`, `transform_dim_teams` and `transform_dim_fixtures` |
| `FactPlayers` | fact_players.dfy | `transform_fact_players` |
| `Transform` | transform.dfy | `transform_data` and `save_df_to_parquet_s3` |
| `Load` | load.dfy | `airflow_home/dags/scripts/load.py` |

## Model

| member | source | states |
|---|---|---|
| Helpers.GenerateFilename | airflow_home/dags/scripts/helpers.py:4-6 | The name is the 10-character ISO date, then `/`, then the endpoint unchanged. The date part holds no `/` and no extension is added. |
| Helpers.FilenameSplits | airflow_home/dags/scripts/helpers.py:6 | Splitting a generated name at its first `/` gives back the date text and the endpoint. |
| Helpers.FilenameInjective | airflow_home/dags/scripts/helpers.py:6 | Two generated names are equal only when the dates and the endpoints are equal. |
| Calendar.IsoDate | airflow_home/dags/scripts/helpers.py:6 | `%Y-%m-%d` is 10 characters: digits with `-` at positions 4 and 7. |
| Calendar.IsoDateRoundTrip | airflow_home/dags/scripts/helpers.py:6 | Parsing the formatted date gives back the date. |
| Calendar.ParseIsoDateSound | airflow_home/dags/scripts/helpers.py:6 | Whatever the date parser accepts is a valid date that formats back to the same text. |
| Calendar.IsoDateInjective | airflow_home/dags/scripts/helpers.py:6 | Distinct valid dates give distinct prefixes. |
| Text.NatToStringValue | airflow_home/dags/scripts/extract.py:53 | The decimal numeral of a round number reads back as that number. |
| Text.NatToStringInjective | airflow_home/dags/scripts/extract.py:53 | Distinct round numbers give distinct numerals. |
| Text.Pad2RoundTrip | airflow_home/dags/scripts/helpers.py:6 | A two-digit zero-padded field reads back as its number. |
| Text.Pad4RoundTrip | airflow_home/dags/scripts/helpers.py:6 | A four-digit zero-padded year reads back as its number. |
| Text.PaddedNumeral | airflow_home/dags/scripts/helpers.py:6 | Every 2- or 4-digit string is the padded form of its value. |
| Extract.Endpoints | airflow_home/dags/scripts/extract.py:46-54 | Exactly 40 endpoints: `fixtures`, then `bootstrap-static`, then `event/1/live` … `event/38/live` in ascending order. |
| Extract.GenerateEndpoints | airflow_home/dags/scripts/extract.py:46-54 | The list built by extending the fixed pair with the live endpoints is exactly `Endpoints()`. |
| Extract.EndpointsDistinct | airflow_home/dags/scripts/extract.py:46-54 | The 40 endpoints are pairwise distinct. |
| Extract.LiveEndpointInjective | airflow_home/dags/scripts/extract.py:50-53 | Distinct rounds give distinct live endpoints. |
| Extract.RequestUrlInjective | airflow_home/dags/scripts/extract.py:71-72 | The request URL is the API base, the endpoint and a trailing `/`, so distinct endpoints are requested at distinct URLs. |
| Extract.ObjectKeyInjective | airflow_home/dags/scripts/extract.py:32 | For one date, distinct endpoints are saved under distinct keys `{date}/{endpoint}.json`. |
| Extract.SaveRunSavesAll | airflow_home/dags/scripts/extract.py:30-33 | When every fetch succeeds and the bucket exists, every document is saved, in endpoint order, under its own key. |
| Extract.SaveRunStopsAtFailure | airflow_home/dags/scripts/extract.py:30-33 | The first failed fetch is the escaping error, and only the endpoints before it were saved. |
| Extract.SaveRunMissingBucket | airflow_home/dags/scripts/extract.py:97-103 | Saving into a missing bucket raises a client error on the first endpoint, and that error escapes. |
| Extract.ExtractSavesEachEndpoint | airflow_home/dags/scripts/extract.py:28-33 | With every reply good, there is one saved object per endpoint, in order, holding that endpoint's reply body under `generate_filename(endpoint) + ".json"`. |
| Extract.ExtractStopsAtFailedFetch | airflow_home/dags/scripts/extract.py:30-33 | An HTTP error or connection failure at endpoint k is re-raised; endpoints 0..k-1 are saved and no later one is. |
| Extract.ExtractObjectCount | airflow_home/dags/scripts/extract.py:28-33 | A successful run leaves exactly as many new objects as there are endpoints. For example, two endpoints give two objects. |
| Extract.FetchStop | airflow_home/dags/scripts/extract.py:30-31 | When the fetch for the next endpoint raises, the run ends with that error and nothing more is written. |
| Extract.PutStop | airflow_home/dags/scripts/extract.py:30-33 | When the fetch succeeds but the bucket is missing, the put is still attempted, and its client error ends the run. |
| Extract.SaveStep | airflow_home/dags/scripts/extract.py:30-33 | When the fetch succeeds and the bucket exists, the run writes that document and then goes on with the remaining endpoints. |
| Extract.SaveEndpoints | airflow_home/dags/scripts/extract.py:30-33 | For any endpoint list, the loop's outcome, stored objects and put log are those `SaveRun` gives for the fetches of that list. |
| Extract.ExtractData | airflow_home/dags/scripts/extract.py:15-33 | The loop's outcome, the objects it leaves in the store and its log of put calls are those of `SaveRun` over the 40 endpoints. |
| Storage.ObjectStore.PutObject | airflow_home/dags/scripts/extract.py:97-103 | A put into an existing bucket stores the body under the key and changes nothing else. A missing bucket stores nothing and reports failure. Every call is logged. |
| Storage.StoredCount | airflow_home/dags/scripts/extract.py:30-33 | Writing n fresh distinct keys into a bucket grows it by exactly n objects. |
| LegacyExtract.Endpoints | scripts/extract.py:17-29 | Exactly 80 endpoints: the four fixed ones, then `event/0/live` … `event/37/live`, then `entry/{tid}/event/0/picks` … `entry/{tid}/event/37/picks`. |
| LegacyExtract.GenerateEndpoints | scripts/extract.py:17-29 | The list built by two `extend` calls is exactly `Endpoints(tid)`. |
| LegacyExtract.EndpointsDistinct | scripts/extract.py:17-29 | The 80 endpoints are pairwise distinct. |
| LegacyExtract.PicksEndpointInjective | scripts/extract.py:28 | Distinct rounds give distinct picks endpoints. |
| LegacyExtract.LiveRoundsFromZero | scripts/extract.py:27 | Live rounds start at 0 and `event/38/live` is absent. The Airflow list starts at `event/1/live`. |
| LegacyExtract.GenerateFilename | scripts/extract.py:42-43 | The legacy name is the Airflow name followed by `.json`. |
| LegacyExtract.HttpErrorSavesNull | scripts/extract.py:11-14 | An HTTP error does not abort the run. Every endpoint is still saved, and one whose status was an error is saved as JSON `null`. |
| LegacyExtract.SaveEndpoints | scripts/extract.py:11-14 | For any endpoint list, the loop's outcome, stored objects and put log are those `SaveRun` gives for the legacy fetches of that list. An HTTP error counts as a `null` document. |
| LegacyExtract.ExtractData | scripts/extract.py:8-14 | The loop's outcome, stored objects and put log are those of `SaveRun` over the 80 endpoints, with HTTP errors turned into `null`. |
| Frames.FrameOf | airflow_home/dags/scripts/transform.py:126-128 | A list of objects becomes a frame with one record per object, in order. Its columns are the union of the keys, and a key missing from an object reads as null. An object that frames has its keys as columns. |
| Frames.RenameFrame | airflow_home/dags/scripts/transform.py:220-222 | Renaming keeps the record count and order, and renames the columns exactly as each record's keys. |
| Frames.RenameSelect | airflow_home/dags/scripts/transform.py:220-228 | Selecting renamed columns succeeds exactly when their source columns exist, and reads the source columns' values. |
| Frames.Select | airflow_home/dags/scripts/transform.py:226-228 | Selection fails, naming the absent columns, exactly when a wanted column is missing. Otherwise it gives one row per record, in order, with one value per column. |
| Frames.NonNullRowsRectangular | airflow_home/dags/scripts/transform.py:185 | `dropna` on a table whose rows hold one value per column leaves only such rows. |
| Frames.Project | airflow_home/dags/scripts/transform.py:131-134 | A projection fails exactly when a column is missing, and otherwise keeps each record's selected cells. |
| Frames.Missing | airflow_home/dags/scripts/transform.py:190-192 | The reported missing columns are exactly the wanted columns that are absent. |
| Frames.Concat | airflow_home/dags/scripts/transform.py:158-160 | Concatenation puts the first frame's records before the second's and unites their columns. |
| Frames.CrossRecordsAt | airflow_home/dags/scripts/transform.py:163 | Record `i*|right| + j` of a cross join is left record i extended with right record j. |
| Frames.MatchesComplete | airflow_home/dags/scripts/transform.py:164-169 | Every right record that agrees with the left record on the join keys is among its matches. The match function itself yields only such records. |
| Frames.LeftMergeRecordsAppend | airflow_home/dags/scripts/transform.py:164-169 | A left join distributes over concatenation of the left side. |
| Frames.MergeOneRows | airflow_home/dags/scripts/transform.py:164-169 | Take a left record whose own selected row has a null. After `dropna`, its part of the join is exactly the complete rows of its matches: an unmatched record leaves nothing, and a matched one leaves one row per complete match. |
| Frames.NonNullRows | airflow_home/dags/scripts/transform.py:185 | `dropna` keeps exactly the rows without a null, in order. |
| Frames.CompleteRows | airflow_home/dags/scripts/transform.py:333-337 | Dropping incomplete records and then selecting gives the selected rows of the records that were complete over all columns. |
| Mappers.MissingMessage | airflow_home/dags/scripts/transform.py:190-192 | The re-raised `KeyError` text starts with the mapper's name followed by ` Missing required columns: `. |
| Mappers.RawKey | airflow_home/dags/scripts/transform.py:118-123 | The transform stage reads `{date}/{name}.json`, the very key the extract stage saved that endpoint under. |
| Mappers.Fetch | airflow_home/dags/scripts/transform.py:44-69 | Reading a raw file succeeds exactly when the bucket and key exist, and gives the stored document. |
| Mappers.Field | airflow_home/dags/scripts/transform.py:126-127 | Indexing the document succeeds exactly when the key is present. A missing key is a `KeyError` naming that key. |
| Mappers.MissingListIsKeyError | airflow_home/dags/scripts/transform.py:230-232 | A bootstrap file without `elements` or `teams` makes the mapper fail with `MissingColumns` naming that list. |
| Mappers.DimPlayersOf | airflow_home/dags/scripts/transform.py:217-228 | A `dim_players` table has the columns `first_name, second_name, web_name, player_id, team_id`, and every row holds one value per column. |
| Mappers.DimTeamsOf | airflow_home/dags/scripts/transform.py:257-271 | A `dim_teams` table has the columns `team_id, team_name, team_name_short`, and every row holds one value per column. |
| Mappers.DimPlayersTable | airflow_home/dags/scripts/transform.py:217-228 | The mapper fails exactly when one of `first_name`, `second_name`, `web_name`, `id` or `team` is absent. Otherwise there is one row per element, in order, with those five values unchanged under the columns `first_name, second_name, web_name, player_id, team_id`. |
| Mappers.DimTeamsTable | airflow_home/dags/scripts/transform.py:257-271 | The mapper fails exactly when `id`, `name` or `short_name` is absent. Otherwise there is one row per team, in order, holding those three values unchanged as `team_id, team_name, team_name_short`. |
| Mappers.KickoffRoundTrip | airflow_home/dags/scripts/transform.py:319-324 | Parsing a `YYYY-MM-DDTHH:MM:SSZ` kickoff time at an instant a pandas timestamp can hold (1677-09-21T00:12:44Z to 2262-04-11T23:47:16Z) gives back its date and time of day. |
| Mappers.KickoffOutOfBounds | airflow_home/dags/scripts/transform.py:319-324 | A well-formed kickoff outside that range does not convert, as `pd.to_datetime` raises out of bounds there; the years 1500 and 2300 are outside it. |
| Mappers.ParseKickoffSound | airflow_home/dags/scripts/transform.py:319-324 | Every accepted kickoff time is a valid date and time within the timestamp range that prints back to the same text. |
| Mappers.Stamp | airflow_home/dags/scripts/transform.py:319-324 | A null kickoff gives a null date and a null time. A present kickoff gives non-null parts. |
| Mappers.Stamps | airflow_home/dags/scripts/transform.py:319-324 | Date and time extraction fails exactly when some kickoff is malformed or outside the timestamp range. The error carries the first such kickoff. Otherwise there is one stamp per fixture. |
| Mappers.FixtureSources | airflow_home/dags/scripts/transform.py:303-316 | The 11 output columns read, in order, `id`, `event`, the date, the time, `finished`, `team_h`, `team_a`, both scores and both difficulties. |
| Mappers.PreparedSurvives | airflow_home/dags/scripts/transform.py:326-333 | After the scores are zero-filled, a fixture is complete over all its columns exactly when nothing but its scores was null. Raw columns such as `kickoff_time` and `started` count. |
| Mappers.PreparedRow | airflow_home/dags/scripts/transform.py:337-351 | A prepared fixture's selected row is the reference row: renamed values, kickoff date and time, and scores with null read as 0. |
| Mappers.UnplayedFixture | airflow_home/dags/scripts/transform.py:326-333 | An unplayed fixture, null only in its scores, survives with a 0-0 score. |
| Mappers.OtherNullDrops | airflow_home/dags/scripts/transform.py:333 | Any other null drops the fixture, even in a raw column the table does not keep. |
| Mappers.DimFixturesTable | airflow_home/dags/scripts/transform.py:300-351 | On success the table has the 11 fixed columns. It has the reference row of every surviving fixture, in input order. |
| Mappers.DimFixturesOf | airflow_home/dags/scripts/transform.py:300-351 | A `dim_fixtures` table has the 11 fixed columns, and every row holds one value per column. |
| Mappers.DimFixturesSucceeds | airflow_home/dags/scripts/transform.py:300-355 | All four facts below about when the fixture mapper raises, for one frame. |
| Mappers.DimFixturesSuccessIff | airflow_home/dags/scripts/transform.py:300-351 | The mapper succeeds exactly when all ten raw keys it reads are columns and every kickoff converts. |
| Mappers.FixturesDatedSucceeds | airflow_home/dags/scripts/transform.py:326-351 | Once the kickoffs have converted, the mapper succeeds exactly when all ten raw keys are columns. |
| Mappers.FixtureSourcesPresent | airflow_home/dags/scripts/transform.py:303-351 | The ten raw keys are columns exactly when `kickoff_time` and both raw scores are, and every selected column exists after the renames, the kickoff split and the fills. |
| Mappers.DimFixturesMissingKickoff | airflow_home/dags/scripts/transform.py:319-324 | Without `kickoff_time` the mapper raises a `KeyError` naming that column alone, before anything else. |
| Mappers.DimFixturesBadKickoff | airflow_home/dags/scripts/transform.py:319-324 | With `kickoff_time` present, the first kickoff that does not convert is the error raised. It is not a `KeyError`, so the handler does not rename it. |
| Mappers.DimFixturesFailureKinds | airflow_home/dags/scripts/transform.py:319-355 | Every failure is this mapper's missing-columns `KeyError` or a kickoff that does not convert. |
| Mappers.DictOfListsMissesKickoff | airflow_home/dags/scripts/transform.py:353-355 | An object of lists, such as `{"elements": [...], "test": [...]}`, frames with its keys as columns. It has no `kickoff_time`, so the mapper raises its missing-columns `KeyError`. |
| FactPlayers.ViewsLayout | airflow_home/dags/scripts/transform.py:136-160 | The stacked fixture frame has exactly two records per fixture. Record k is fixture k from the home side: `team_h` as team, `team_a` as opposition, home difficulty, `is_home` true. Record n+k is its mirror from the away side with `is_home` false. |
| FactPlayers.StackedColumns | airflow_home/dags/scripts/transform.py:136-160 | The stacked frame's columns are the two renamed column sets plus `is_home`. |
| FactPlayers.JoinPair | airflow_home/dags/scripts/transform.py:163-182 | A player-gameweek pair joins a fixture view exactly when the player's team plays in it that gameweek. The joined row's seven selected values are the reference fact row. |
| FactPlayers.PairRowHasNull | airflow_home/dags/scripts/transform.py:164-185 | A pair that the left join leaves unmatched always has a null fixture id among its selected values, so `dropna` removes it. |
| FactPlayers.FactsMatch | airflow_home/dags/scripts/transform.py:163-185 | Cross join, left join on `(team_id, gameweek_id)`, select of the seven columns and `dropna` together give exactly the reference facts. |
| FactPlayers.FactPlayersOf | airflow_home/dags/scripts/transform.py:163-188 | A `fact_players` table has the seven fixed columns, and every row holds one value per column. |
| FactPlayers.FactPlayersRows | airflow_home/dags/scripts/transform.py:101-188 | On success the fact table has the seven fixed columns. Its rows go by player in input order, then gameweek in order, then fixture view in stacked order. There is one row per view the player's team plays that gameweek, unless one of the seven selected values is null. |
| FactPlayers.FactPlayersSucceeds | airflow_home/dags/scripts/transform.py:126-192 | The mapper succeeds exactly when elements carry `id` and `team`, events carry `id`, and fixtures carry `id`, `event`, at least one of `team_h` and `team_a`, and at least one of `team_h_difficulty` and `team_a_difficulty`. One of each suffices, because the stacked views unite both sides' columns. Otherwise it is a missing-columns `KeyError`. |
| FactPlayers.FactPlayersGate | airflow_home/dags/scripts/transform.py:126-192 | The mapper succeeds exactly when both projections, the left join and the final selection succeed. Any failure is `MissingColumns`. |
| FactPlayers.ViewRowsExactly | airflow_home/dags/scripts/transform.py:163-185 | A fact row of a player and gameweek comes from a view the player's team plays in that gameweek, with all seven values present. Every such view gives its row. |
| FactPlayers.NoFixtureNoRow | airflow_home/dags/scripts/transform.py:164-185 | A player-gameweek with no fixture for the player's team gives no row. |
| FactPlayers.DoubleGameweek | airflow_home/dags/scripts/transform.py:164-185 | Two fixtures of the team in one gameweek give the player two rows, in fixture order. |
| FactPlayers.NullEventNeverMatches | airflow_home/dags/scripts/transform.py:164-185 | A fixture with a null `event` never gives a fact row. |
| FactPlayers.KickoffNotViewed | airflow_home/dags/scripts/transform.py:172-185 | Fixture views do not read `kickoff_time`, so a null kickoff does not remove the fixture's fact rows. |
| Transform.TableNamesDistinct | airflow_home/dags/scripts/transform.py:30-41 | The four tables are `fact_players`, `dim_players`, `dim_teams` and `dim_fixtures`, all distinct. |
| Transform.ParquetPathInjective | airflow_home/dags/scripts/transform.py:91 | For one date and bucket, distinct tables go to distinct `s3://{bucket}/{date}/{table}.parquet` paths. |
| Transform.ParquetStore.ToParquet | airflow_home/dags/scripts/transform.py:94 | A write to a path that can be written replaces that object. A write to a failing path changes nothing and reports failure. Every attempt is logged. |
| Transform.SaveDfToParquetS3 | airflow_home/dags/scripts/transform.py:72-98 | The frame is written to the table's parquet path. A sink failure is swallowed: no exception, no other object touched. |
| Transform.SequencedAllSucceed | airflow_home/dags/scripts/transform.py:30-41 | No error escapes exactly when all four mappers succeed. Every table is then saved in order. |
| Transform.SequencedStopsAt | airflow_home/dags/scripts/transform.py:30-41 | The first failing mapper's error escapes, and only the tables before it are saved. |
| Transform.SequencedPrefix | airflow_home/dags/scripts/transform.py:30-41 | The saved tables are always a prefix of the table order, each holding its mapper's result. |
| Transform.RunPaths | airflow_home/dags/scripts/transform.py:30-41 | The sink is called once per saved table, in table order, at that table's parquet path. |
| Transform.RunPersists | airflow_home/dags/scripts/transform.py:30-41 | After the run, every saved table whose path can be written is stored at its path. |
| Transform.Mapped | airflow_home/dags/scripts/transform.py:30-41 | Every table a mapper of the run gives has one value per column in every row. |
| Transform.PersistedRectangular | airflow_home/dags/scripts/transform.py:89-98 | Writing such tables into a store holding only such tables leaves only such tables. |
| Transform.RunRectangular | airflow_home/dags/scripts/transform.py:16-41 | After a run, the destination bucket holds only tables with one value per column in every row, when it did before. |
| Transform.PersistedFailing | airflow_home/dags/scripts/transform.py:97-98 | A path whose write fails keeps its previous contents or stays absent. |
| Transform.PersistedKeeps | airflow_home/dags/scripts/transform.py:89-98 | A path that is not a saved table's path is left unchanged. |
| Transform.SequencedFour | airflow_home/dags/scripts/transform.py:30-41 | With four mappers, the run is spelled out case by case: the first failure's error escapes after exactly the tables before it, and with no failure all four tables are saved in order. |
| Transform.SaveOrRaise | airflow_home/dags/scripts/transform.py:30-41 | One statement of the run. A failed mapper stops the run before the sink is called and changes nothing. A successful one adds exactly its table's path to the attempts and its write to the objects. |
| Transform.SaveStages | airflow_home/dags/scripts/transform.py:30-41 | With each mapper run only after the previous table is saved, the outcome, the attempts and the objects are those `Sequenced` and `Persisted` give for the mapper results. |
| Transform.TransformData | airflow_home/dags/scripts/transform.py:16-41 | The outcome, the sink's log of write attempts and the stored objects are those of `Sequenced` over the four mapper results. Each write goes to its table's path. |
| Load.ColumnListRoundTrip | airflow_home/dags/scripts/load.py:51 | Splitting the column list on `", "` gives back the frame's columns, in order, for comma-free names. |
| Load.PlaceholdersJoined | airflow_home/dags/scripts/load.py:52-53 | The placeholder string is n copies of `%s` joined by `", "`, with no trailing separator. |
| Load.PlaceholderCount | airflow_home/dags/scripts/load.py:52-53 | The placeholder string holds exactly one `%s` per column. |
| Load.StatementFitsRows | airflow_home/dags/scripts/load.py:52-55 | Every parameter tuple has exactly as many values as the statement has placeholders. |
| Load.InsertLog | airflow_home/dags/scripts/load.py:59-61 | A table load issues `TRUNCATE`, then one `executemany` of the insert with all parameter tuples, then one commit. |
| Load.Replaced | airflow_home/dags/scripts/load.py:59-61 | On a reachable warehouse an existing table ends up holding exactly the frame's rows. Every other table is unchanged. |
| Load.CreateDbConn | airflow_home/dags/scripts/load.py:38-46 | The engine is returned when the database answers, and nothing otherwise. |
| Load.InsertDfIntoDbAsWritten | airflow_home/dags/scripts/load.py:49-66 | As written: with no engine, or an unreachable database, `finally: conn.close()` raises an unbound-local error that escapes. Otherwise the table is replaced and nothing escapes. |
| Load.InsertDfIntoDb | airflow_home/dags/scripts/load.py:49-66 | Corrected: the table is replaced when the database is reachable, and nothing escapes in any case. |
| Load.Replace | airflow_home/dags/scripts/load.py:57-62 | The truncate, insert and commit sequence leaves the table holding the frame's rows and logs exactly those three statements. |
| Load.ReadsWhatTransformWrote | airflow_home/dags/scripts/load.py:19 | The parquet file the load stage reads for a table is the path the transform stage wrote it to. |
| Load.RetrieveS3Parquet | airflow_home/dags/scripts/load.py:24-35 | Reading succeeds exactly when the object exists and gives it. Otherwise a missing-key error escapes. |
| Load.LoadedOffline | airflow_home/dags/scripts/load.py:16-21 | Without a database connection no table changes and no statement runs. |
| Load.LoadedHolds | airflow_home/dags/scripts/load.py:16-21 | When every file is present and the database is reachable, each named table that exists ends up holding its file's rows. |
| Load.LoadedKeeps | airflow_home/dags/scripts/load.py:16-21 | A table the run does not name is left unchanged. |
| Load.LoadDataAsWritten | airflow_home/dags/scripts/load.py:12-21 | As written, with `insert_df_into_db` as written: a reachable warehouse is loaded exactly as `Loaded` says. An unreachable one is left untouched, and the run fails at `fact_players`: with its parquet file missing, that error; otherwise the unbound-connection error. |
| Load.LoadData | airflow_home/dags/scripts/load.py:12-21 | The loop's outcome, the final tables and the statement log are those of `Loaded` over `fact_players`, `dim_players`, `dim_teams` and `dim_fixtures`, in that order. |
| Load.StoredRowsFit | airflow_home/dags/scripts/load.py:52-55 | A table read from a bucket of such tables is inserted with one value per placeholder in every parameter tuple. |
| Load.TransformedRowsFit | airflow_home/dags/scripts/load.py:16-21 | After a transform run into the bucket, every table `load_data` reads there is inserted with one value per placeholder in every parameter tuple. |
| Load.TransformThenLoad | airflow_home/dags/scripts/load.py:16-21 | After a transform run in which all mappers succeed and no write fails, loading the same day raises nothing. Each existing warehouse table among the four then holds exactly its mapper's rows. |

## Left out

- The network, S3, the parquet codec and MySQL are modelled as abstract collaborators:
  - The API is a function from URL to reply.
  - The JSON bucket is `Storage.ObjectStore`.
  - The parquet bucket is `Transform.ParquetStore`; its failing paths are a parameter.
  - The database is `Load.Warehouse`.
- The connection string built in `create_db_conn` and the credentials are not modelled: reaching the database is one boolean.
- JSON text encoding and decoding (`json.dumps`, `json.loads`) are not modelled. A document is stored and read back as a `Json` value.
- Logging and console output are not modelled.
- `datetime.now()` is replaced by a `today` parameter. The mappers, the orchestrator and the load stage of one run share one date.
- pandas dtype and index artefacts are not modelled. This covers int-to-float promotion after the left join, the index after `dropna`, and NaT. Numbers are exact integers.
- Mappers.ParseKickoff accepts only `YYYY-MM-DDTHH:MM:SSZ` at an instant a pandas timestamp can hold; out-of-range instants are refused as `pd.to_datetime` refuses them:
  - Offsets other than `Z`, fractional seconds and other formats `pd.to_datetime` accepts are treated as parse errors, not converted.
  - Time-zone conversion is not modelled.
- Mappers.Stamp treats only a null cell as a missing kickoff:
  - The strings `""`, `"NaT"` and `"nan"`, which `pd.to_datetime` reads as missing (NaT), fail the whole mapper with `UnparseableKickoff`. In pandas they become NaT, and `dropna` (airflow_home/dags/scripts/transform.py:333) then drops that fixture's row.
  - Integer kickoffs, which `pd.to_datetime` converts as epoch offsets, also fail the mapper with `UnparseableKickoff`.
- Mappers.DimPlayersTable, Mappers.DimTeamsTable, Mappers.DimFixturesTable and FactPlayers.FactPlayersRows assume that no raw key already carries a name the mapper renames to (`ClashFree`, `FixtureNamesFree`, `FactNamesFree`). pandas would create duplicate columns there, and merge suffixes (`_x`, `_y`) are not modelled.
- Frames.FrameOf frames `None` (an empty frame), a list of JSON objects, and an object whose values are lists of one common length. It refuses, as a mapper failure (`Unframeable`), three shapes pandas does frame:
  - a list holding anything but objects (pandas makes a column `0`, or one row per inner list);
  - an object mixing lists with scalars (pandas repeats each scalar down its column);
  - an object of nested objects (pandas indexes the rows by the inner keys).
  Like pandas, it also refuses an object holding only scalars, lists of unequal lengths, and a bare scalar.
- Load.InsertDfIntoDb treats the truncate, insert and commit as one step that succeeds when the database is reachable:
  - An `executemany` failure after the truncate is not modelled.
  - MySQL commits `TRUNCATE` implicitly, so such a failure would leave the table empty.
- Load.LoadData calls the corrected `InsertDfIntoDb`. The as-written behaviour is modelled separately by `InsertDfIntoDbAsWritten` and `LoadDataAsWritten` (see Findings).
- Load.ColumnListRoundTrip requires column names without a comma and at least one column. With an empty frame, `", ".join` gives an empty string, which splits to one empty field.
- Failures are not isolated per table. A mapper `KeyError` or a read error escapes `transform_data` and aborts the tables after it, as the code does. A design that isolates each table's failure would differ here; the model follows the code.
- `retrieve_s3_json` errors other than a missing bucket or key are not modelled. This covers permissions and bodies that do not decode.
- The DAG wiring, `db_setup.py` DDL, the Lambda handlers and the throwaway scripts are not part of this model.

## Findings

| source | as written | input that shows it | evidently intended | confidence | as-written member | corrected member |
|---|---|---|---|---|---|---|
| airflow_home/dags/scripts/load.py:49-66 | `conn` is bound only by `engine.raw_connection()` inside the `try`, yet `finally: conn.close()` always runs. | `create_db_conn` returned `None` because the database was unreachable, or `raw_connection()` raised. The `except` prints, then `conn.close()` raises `UnboundLocalError`, which escapes and aborts `load_data` at the first table. | The error is printed and the load goes on, as the `except` clause intends. | not executed | Load.InsertDfIntoDbAsWritten, Load.LoadDataAsWritten | Load.InsertDfIntoDb, Load.LoadData |
