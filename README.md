# vision-perception-sample: the retrieval pipeline's logic, in Dafny

This project models the parts of the video-retrieval service that are plain
logic, without the models and networks around them. It proves properties of
each part.

- **Frame selection.** `extract_key_frames` samples every `int(fps * interval)`-th frame and keeps a candidate when its mean absolute pixel difference from the previous candidate exceeds 30. `extract_frames` seeks in strides of N; `extract_frames_from_video` writes zero-padded frame files; the thumbnail seek time is clamped into the video.
- **Batched ingestion.** `update_video_vector` and `update_image_vector` hand out consecutive ids and compute timestamps. They flush batches of 50, clear a buffer only after an insert returns, and flush the remainder at the end.
- **The Milvus adapter.** This covers metric validation, the per-`database_collection` instance cache, result flattening with the ascending-distance sort, the `m_id in [...]` filter, and the error-to-empty search path.
- **The query path.** Frame search routes a query by its type and keeps only complete hits, as parallel lists. Video search projects store records into five-field rows.
- **Metadata.** `add` enriches a stored record by action type; `upload` inserts a URL only when it is new; mining results are normalised (`H:MM:SS` times, ranges, thumbnail names, JSON-fence stripping).
- **Supporting rules.** These are the lazy embedding factory, the API envelopes and the exception-to-status mapping.
- **Evaluation tooling.** This covers the offset paginator, the integer tag statistics and report, and the Streamlit session-state helpers.
- **The watermark.** This is the watermark mask.
- **The Redis category client.** This covers validation and authorisation, key namespacing, expiry defaulting, the empty-key guards, and `exists`/`delete`/`set`/`get`/`strlen`/`mget`/`mset` over a modelled server.

Every collaborator becomes a function parameter or a modelled store:

- **Video reading.** A capture is a `seq<Option<Frame>>`; reading stops at the first `None`.
- **Embedding models.** Each model is a function that returns `None` when it raises.
- **Milvus.** A search is a function from the request to the hit lists, or `None`.
- **The video store.** It is a `map` from path to record.
- **The OSS uploader, ffmpeg, the LLM services, the category service and the environment.** Each is a parameter.

Frames and embeddings are integer sequences, fps is a natural number, and distances are integers. A state the source mutates in place is a class:

- the instance registry of the Milvus adapter;
- the embedding factory;
- the paginator;
- the Streamlit session;
- the video store and the temporary directory;
- the Redis server and category.

Loops that update state step by step are methods with invariants, each proved equal to a recursive specification function. Loops that only build a fresh list (`process_search_results`, `parse_search_result`, `parse_mining_result`) are recursive functions. The properties are lemmas about those functions.

Modules: `Wrappers` (Option, Result), `Strings` (Python string operations), `Sorting` (stable sort, as `list.sort`), `Sampling`, `KeyFrames`, `FrameIngest`, `FrameFiles`, `VectorStore`, `FrameSearch`, `VideoSearch`, `Metadata`, `Mining`, `EmbeddingFactory`, `Response`, `Paginator`, `EvaluationReport`, `EvaluationUi`, `Watermark`, `RedisCategory`.

## Model

| member | source | states |
|---|---|---|
| KeyFrames.Readable | app/utils/video_processor.py:23-26 | The frames read are the successful reads before the first failed read, in order. |
| KeyFrames.ExtractKeyFrames | app/utils/video_processor.py:16-50 | The read loop returns exactly the key-frame selection. A zero frame interval is a ZeroDivisionError once a frame is read, but an empty capture gives no frames. |
| KeyFrames.KeptIndicesExact | app/utils/video_processor.py:29-45 | The kept indices are increasing multiples of the interval below the frame count. Index i is kept iff it is a candidate and either the first, or its difference from the candidate one interval earlier (kept or not) exceeds 30 per pixel. |
| KeyFrames.KeptIndicesBelow | app/utils/video_processor.py:23-47 | Every kept index is a frame that was read. |
| KeyFrames.Pick | app/utils/video_processor.py:36-43 | The output holds the frame at each kept index, in read order. |
| KeyFrames.FirstFrameKept | app/utils/video_processor.py:39-43 | When at least one frame is read, index 0 is kept first. |
| KeyFrames.SelectionStartsWithFirstFrame | app/utils/video_processor.py:31-43 | A video with a readable frame and a positive interval yields at least one frame, and the first one is frame 0. |
| KeyFrames.KeptAtMostCandidates | app/utils/video_processor.py:29 | No more frames are kept than there are candidates, which is ceil(n / interval) for n frames read. |
| KeyFrames.NonCandidatesIgnored | app/utils/video_processor.py:29-47 | Two videos that agree on every candidate frame keep the same indices. |
| KeyFrames.NonCandidatesIgnoredInSelection | app/utils/video_processor.py:29-47 | Non-candidate frames never influence the selected frames. |
| KeyFrames.ReadableStopsAtFailure | app/utils/video_processor.py:24-26 | Whatever follows the first failed read is never read. |
| KeyFrames.SelectionStopsAtFailure | app/utils/video_processor.py:24-26 | The selection does not depend on anything after the first failed read. |
| Sampling.CountMultiplesValue | app/utils/video_processor.py:29 | The number of multiples of d below n is (n + d - 1) / d. |
| FrameIngest.ExtractFrames | app/services/video/updata_video_vector.py:15-31 | The seek loop returns the frames read at positions 0, N, 2N, ... up to the first failed read. |
| FrameIngest.StrideFramesPositions | app/services/video/updata_video_vector.py:19-28 | Frame k of the result is the read at position k*N, and the read at the position after the last frame fails. |
| FrameIngest.IngestFrames | app/services/video/updata_video_vector.py:60-75 | The per-video loop equals its specification, stopping at the first exception with everything appended so far kept. |
| FrameIngest.IngestVideos | app/services/video/updata_video_vector.py:54-78 | The loop over the folder's videos equals the specification, with each video's exception caught inside its own try. |
| FrameIngest.UpdateVideoVector | app/services/video/updata_video_vector.py:50-85 | The whole ingestion equals its specification. Each video is inside its own try; the final flush, outside any try, is the only error. |
| FrameIngest.AddFrameFlushesAtMultiples | app/services/video/updata_video_vector.py:61-75 | An embedded frame raises the count by one. An insert is attempted exactly when the new count is a multiple of 50. |
| FrameIngest.FlushKeepsIds | app/services/video/updata_video_vector.py:71-75 | A flush, whether it succeeds or fails, keeps inserted ids followed by buffered ids equal to 0 .. count-1. The buffer is cleared only when the insert returns. |
| FrameIngest.AddFrameKeepsIds | app/services/video/updata_video_vector.py:61-75 | One frame step keeps the inserted ids followed by the buffered ids equal to 0 .. count-1, with the four columns the same length. |
| FrameIngest.FramesFromKeepsIds | app/services/video/updata_video_vector.py:58-78 | A video, including one that fails midway, keeps the ids consecutive. Frames appended before the failure stay buffered. |
| FrameIngest.AllVideosKeepIds | app/services/video/updata_video_vector.py:54-78 | Ids stay consecutive across all videos in processing order. Entries that yield no frame (a file that is not a video, with fps 0) are allowed. |
| FrameIngest.FramelessEntrySkipped | app/services/video/updata_video_vector.py:58-60 | An entry that yields no frame, such as a file that is not a video, leaves the ingestion state unchanged, whatever its frame rate. |
| FrameIngest.UpdateVideoVectorInsertsEveryId | app/services/video/updata_video_vector.py:51-83 | When ingestion succeeds, the inserted batches together hold ids 0, 1, ..., total-1 in order, including rows re-sent after a failed insert. |
| FrameIngest.FramesFromFullBatches | app/services/video/updata_video_vector.py:60-75 | Without insert failures, every inserted batch has 50 rows and the buffer stays below 50. |
| FrameIngest.AllVideosFullBatches | app/services/video/updata_video_vector.py:54-78 | Without insert failures, every batch flushed inside the loop has exactly 50 rows. |
| FrameIngest.UpdateVideoVectorBatchSizes | app/services/video/updata_video_vector.py:71-83 | Without insert failures, ingestion succeeds. Every batch but the last has 50 rows; the last has 1 to 50. All ids are inserted, in order, and the batches laid end to end are the folder's records. |
| FrameIngest.UpdateVideoVectorInsertsRecords | app/services/video/updata_video_vector.py:51-83 | Without insert failures, the four columns of all inserted batches, laid end to end, equal the records. Row k has id k and the embedding, the video's path and the timestamp `int(frame_idx * N / fps)` of the k-th embedded sampled frame, videos in listing order. Each video's rows stop at its first embedding failure. |
| FrameIngest.TimestampMonotone | app/services/video/updata_video_vector.py:60-68 | The timestamp floor(idx*N/fps) does not decrease within a video. |
| FrameIngest.SingleImageInserted | app/services/video/updata_video_vector.py:88-107 | A single file is inserted as one row with id 0 and its path exactly when it opens, embeds and inserts. Otherwise nothing is inserted. |
| FrameIngest.IngestImages | app/services/video/updata_video_vector.py:130-149 | The per-directory loop equals its specification. An image that fails to open or embed is skipped. |
| FrameIngest.UpdateImageVector | app/services/video/updata_video_vector.py:109-156 | `update_image_vector` equals its specification: a single file goes to `process_single_image`, a folder is walked, and any remainder is flushed at the end. |
| FrameIngest.AddImageKeepsIds | app/services/video/updata_video_vector.py:132-145 | An image that fails to open or embed consumes no id. The ids stay consecutive. |
| FrameIngest.ImagesInKeepIds | app/services/video/updata_video_vector.py:130-149 | A directory keeps the image ids consecutive. |
| FrameIngest.FolderImagesKeepIds | app/services/video/updata_video_vector.py:125-149 | A folder keeps the image ids consecutive. |
| FrameIngest.UpdateImageVectorInsertsEveryId | app/services/video/updata_video_vector.py:116-153 | After a successful folder ingestion, the inserted image ids are 0 .. total-1 in order. |
| FrameIngest.SubDirsOnly | app/services/video/updata_video_vector.py:125-128 | Only sub-directories remain. |
| FrameIngest.NonDirectoriesSkipped | app/services/video/updata_video_vector.py:126-128 | Entries that are not directories have no effect on the ingestion. |
| FrameFiles.ExtractFramesFromVideo | app/utils/common.py:19-68 | The read loop returns exactly the files written, or the ZeroDivisionError of a zero interval. |
| FrameFiles.ExtractedFrames | app/utils/common.py:41-62 | Frame files are saved at every multiple of `int(fps * frame_interval)`, up to the first failed read. |
| FrameFiles.NumDigits | app/utils/common.py:44-45 | The padding width is at least one digit. |
| FrameFiles.SavedConsecutive | app/utils/common.py:50-62 | Write k is frame k*d under name index k, and there is one write per candidate frame. |
| FrameFiles.SavedLength | app/utils/common.py:55-62 | The number of files written is the number of candidates. |
| FrameFiles.SavedEntry | app/utils/common.py:55-59 | Entry k of the writes is the path with index k and the frame k*d. |
| FrameFiles.FramePathInjective | app/utils/common.py:57 | Distinct indices give distinct frame paths, so no saved frame overwrites another. |
| FrameFiles.FrameNameDigits | app/utils/common.py:45-57 | A name's digit part has at least num_digits digits and reads back as its index. |
| FrameFiles.ZeroIntervalFails | app/utils/common.py:41-44 | A zero interval raises before any frame is read, even on an empty video. |
| FrameFiles.ClampSeek | app/utils/common.py:124 | The seek time is never negative. It is at most duration-1 once the video lasts a second, is unchanged inside the video, and is clamped at either end. |
| FrameFiles.GenerateThumbnail | app/utils/common.py:101-145 | An empty URL raises ValueError before probing. A failed probe is a RuntimeError. After a working probe the call succeeds iff the frame grab at the clamped seek time succeeds, and otherwise raises RuntimeError. On success the seek time is the clamped one. |
| FrameFiles.ThumbnailSeekInRange | app/utils/common.py:121-124 | A successful thumbnail seeks within [0, duration-1]. |
| VectorStore.Configure | app/utils/milvus_operator.py:19-51 | Construction succeeds iff the metric is 'L2' or 'IP'; otherwise it raises ValueError. Host and port are the argument, else the environment variable, else 127.0.0.1 and 19530. |
| VectorStore.Registry.constructor | app/utils/milvus_operator.py:16 | The instance cache starts empty. |
| VectorStore.Registry.GetInstance | app/utils/milvus_operator.py:67-89 | A cached key returns the stored operator, ignoring the metric and other arguments. A new key validates, connects and caches; a failure caches nothing. |
| VectorStore.InstanceKeyCollision | app/utils/milvus_operator.py:86 | ("a_b", c) and (a, "b_c") share one cache key. |
| VectorStore.InstanceKeyCollisionExample | app/utils/milvus_operator.py:86 | Distinct pairs ("a_b","c") and ("a","b_c") collide. |
| VectorStore.ToEntity | app/utils/milvus_operator.py:168-176 | A hit becomes an entity with its id, its distance and its optional fields. |
| VectorStore.Entities | app/utils/milvus_operator.py:167-178 | One entity per hit of a query, in hit order. |
| VectorStore.FormatSearchResults | app/utils/milvus_operator.py:154-183 | The flattening loop and sort equal the formatted-results function. |
| VectorStore.AllHitsLength | app/utils/milvus_operator.py:166-178 | There is one entity per hit across all queries. |
| VectorStore.FormattedResultsCorrect | app/utils/milvus_operator.py:164-181 | The results are sorted ascending by distance and are a permutation of all hits. Hits at equal distance keep their order, because the sort is stable. |
| VectorStore.EmptyFirstQueryGivesNothing | app/utils/milvus_operator.py:165 | Empty results, or an empty first query, give []. |
| VectorStore.SearchRequestFor | app/utils/milvus_operator.py:127-142 | The request searches [embedding] with the operator's metric, the limit and the filter. Missing or empty output fields default to m_id, video_id and at_seconds. |
| VectorStore.SearchData | app/utils/milvus_operator.py:104-152 | Any failure of the search gives []. A successful search gives the formatted results of its hit lists. |
| VectorStore.SearchDataSorted | app/utils/milvus_operator.py:104-152 | A successful search whose first query has hits returns exactly the hits, flattened, sorted ascending by distance. |
| VectorStore.SearchAtMostLimit | app/utils/milvus_operator.py:107-144 | A search that answers within its limit returns at most `limit` entities. |
| VectorStore.InsertData | app/utils/milvus_operator.py:91-102 | An insert error is re-raised as the wrapped insert failure. |
| VectorStore.IdTexts | app/utils/milvus_operator.py:200 | Each id is written as str(id), in order. |
| VectorStore.IdFilter | app/utils/milvus_operator.py:200-201 | The filter starts with "m_id in [" and ends with "]". |
| VectorStore.ParseAllTexts | app/utils/milvus_operator.py:200 | The id texts read back as the ids. |
| VectorStore.IdFilterRoundTrip | app/utils/milvus_operator.py:200-201 | Reading the ids back from the filter gives the ids: they are unquoted, comma-and-space separated, and in order. |
| VectorStore.QueryByIds | app/utils/milvus_operator.py:185-211 | The query uses the id filter, default fields m_id, embedding and video_id, and a limit equal to the number of ids. It succeeds iff the collection binds, the query answers and release succeeds. Otherwise the error is the UnboundLocalError in `finally`, the release error, or the wrapped query failure. |
| VectorStore.DeleteByIds | app/utils/milvus_operator.py:213-230 | The delete uses the same filter. It succeeds iff the collection binds, the delete succeeds and release succeeds, with the same three errors. |
| FrameSearch.QueryEmbedding | app/services/video/video_frame_search.py:88-115 | Routing: None and unsupported types give nothing. A URL-valid string is embedded as the image loaded from the URL; an existing file as the image loaded from the file; any other string as text; a PIL image as an image. |
| FrameSearch.CompleteHits | app/services/video/video_frame_search.py:65-70 | Only hits with both a video id and a timestamp remain. |
| FrameSearch.CompleteHitsExact | app/services/video/video_frame_search.py:65-70 | Every kept hit is an input hit, and every complete input hit is kept. |
| FrameSearch.ProcessSearchResults | app/services/video/video_frame_search.py:53-71 | The two lists have equal length: one entry per complete hit. |
| FrameSearch.ProcessSearchResultsPairs | app/services/video/video_frame_search.py:63-71 | Path k and timestamp k come from the same complete hit, in input order. |
| FrameSearch.PairsFollowHits | app/services/video/video_frame_search.py:65-70 | Every returned pair comes from one complete input hit. |
| FrameSearch.VideoFrameSearch | app/services/video/video_frame_search.py:74-168 | The result is two equal-length lists. `image_to_frame` and `text_to_frame` pass their argument through unchanged. |
| FrameSearch.FailuresGiveNothing | app/services/video/video_frame_search.py:88-119 | A missing query, an unsupported type, a failed load or embedding, and an empty embedding all give ([], []). |
| FrameSearch.NoQueryGivesNothing | app/services/video/video_frame_search.py:88-90 | A None query gives ([], []), and so does an unsupported query type. |
| FrameSearch.SearchFailureGivesNothing | app/services/video/video_frame_search.py:128-139 | A failing store search gives ([], []). |
| FrameSearch.AtMostFivePairs | app/services/video/video_frame_search.py:128-131 | At most 5 pairs come back, because the default search limit applies. |
| VideoSearch.RowOf | app/services/video/search.py:40-52 | A row copies m_id, path, thumbnail_path and summary_txt. Tags of None become []. |
| VideoSearch.ParseSearchResult | app/services/video/search.py:35-55 | There are as many rows as records. |
| VideoSearch.ParseSearchResultRows | app/services/video/search.py:37-53 | Row k is the row of record k, in the same order. |
| VideoSearch.EmbeddingAndDistanceNotCopied | app/services/video/search.py:44-51 | Records that differ only in embedding and distance give the same rows, so neither field is copied. |
| VideoSearch.QueryEmbedding | app/services/video/search.py:59-61 | A falsy text (None or "") gives no embedding. Any other text gives embed_fn(text), or the error when embed_fn raises. |
| VideoSearch.Search | app/services/video/search.py:58-65 | The search raises iff the text is truthy and embed_fn raises on it. Otherwise row k is the row of record k of the store's search on that embedding. |
| VideoSearch.FalsyTextSearchesWithoutEmbedding | app/services/video/search.py:59-63 | A falsy text never reaches the embedding model: it searches with None whatever embed_fn does, even if it always raises. |
| Metadata.ParseMiningResult | app/services/video/add.py:12-17 | One tag per mined item. |
| Metadata.ParseMiningResultNames | app/services/video/add.py:12-17 | Tag k is the behaviour name of item k, in the same order. |
| Metadata.ParseSummaryResult | app/services/video/add.py:21-22 | The summary is present iff the key 'summary' is; a missing key is the KeyError. |
| Metadata.EnrichedFields | app/services/video/add.py:25-56 | Action type 1 sets only the tags; 2 only the summary and its embedding (embed_fn of the stored text, which succeeded); 3 both, mining first. The id, path, embedding and thumbnail are kept. Any other type raises. |
| Metadata.SummaryEmbeddingFailureRaises | app/services/video/add.py:51-56 | When embed_fn raises on the summary text, action types 2 and 3 (after successful mining) raise, so nothing is upserted. |
| Metadata.MiningBeforeSummary | app/services/video/add.py:36-38 | For type 3, a failed mining call is the error, whatever the summary service would do. |
| Metadata.VideoStore.Add | app/services/video/add.py:25-43 | A missing record raises "Video not found" and writes nothing. Otherwise the enriched record is upserted and its id returned; any error writes nothing. |
| Metadata.VideoStore.Upload | app/services/video/upload.py:15-31 | The temp file is always removed. A failed upload or thumbnail step inserts nothing. A known URL is returned without inserting. For a new URL, a raising embed_fn("") inserts nothing and raises; otherwise a record with that embedding and the thumbnail is inserted and the URL returned. |
| Metadata.NewRecord | app/services/video/upload.py:28-29 | A new record carries the id, the URL, the embedding and the thumbnail. |
| Metadata.UploadIdempotent | app/services/video/upload.py:27-29 | Uploading the same URL a second time leaves the store as the first upload left it. |
| Mining.ParseInts | app/services/video/mining.py:19 | `map(int, ...)` succeeds only with one integer per part. |
| Mining.FieldsToSecondsThree | app/services/video/mining.py:23-25 | Three fields give 3600h + 60m + s. |
| Mining.SecondsToTimeFormatShape | app/services/video/mining.py:30-34 | The text splits on ':' into the floor-divided hours and two-digit minutes and seconds. |
| Mining.TwoDigits | app/services/video/mining.py:34 | The :02 format is two digits that read back as the value. |
| Mining.SecondsToTimeFormatNoDash | app/services/video/mining.py:30-34 | For n >= 0 the formatted time contains no '-'. |
| Mining.TimeRoundTrip | app/services/video/mining.py:18-34 | time_to_seconds(seconds_to_time_format(n)) == n, for every integer n, with Python's floor division. |
| Mining.ReadBackFields | app/services/video/mining.py:18-25 | A time with parts h, mm, ss reads as 3600h + 60m + s. |
| Mining.ParseThree | app/services/video/mining.py:19 | The formatted parts parse back as their values. |
| Mining.ParseIntsOfThree | app/services/video/mining.py:19 | Three parseable parts parse as a list of three. |
| Mining.TimeOfThreeParts | app/services/video/mining.py:19-25 | Three parsed parts give 3600h + 60m + s. |
| Mining.TimeToSecondsNonNegative | app/services/video/mining.py:18-25 | A time without '-' that parses is non-negative. |
| Mining.ParseIntsNonNegative | app/services/video/mining.py:19 | Parts without '-' parse as non-negative numbers. |
| Mining.StandardFormatStart | app/services/video/mining.py:37-41 | The normalised start denotes the same number of seconds as the original start. |
| Mining.StandardFormatIdempotent | app/services/video/mining.py:37-43 | Normalising an already normalised "start-end" range gives it back. |
| Mining.ThumbnailName | app/services/video/mining.py:60 | The thumbnail name ends in ".jpg". |
| Mining.FormatMiningResult | app/services/video/mining.py:46-66 | The loop equals its specification: skip, keep or fail item by item. |
| Mining.FormatStep | app/services/video/mining.py:48-64 | One item either fails the call, is skipped, or is appended. |
| Mining.Eligibles | app/services/video/mining.py:49-54 | Only items with an id, a name and a range containing '-' remain. |
| Mining.FormatKeepsEligible | app/services/video/mining.py:48-66 | A successful call keeps the eligible items in input order, with their ids and names. |
| Mining.KeptItemShape | app/services/video/mining.py:56-63 | A kept item gets the normalised "start-end" range and the thumbnail uploaded under basename(url) + "_t_" + start + ".jpg". |
| Mining.ProcessItemKinds | app/services/video/mining.py:49-64 | An item is skipped iff it lacks an id, a name or a range, or its range has no '-'. A kept item has the same id and name. |
| Mining.ManyDashesFail | app/services/video/mining.py:38-56 | A range with two or more '-' passes the check and then raises, uncaught. |
| Mining.FormatFailsIff | app/services/video/mining.py:46-66 | The call fails iff some item fails. |
| Mining.CleanJsonString | app/services/video/mining.py:12-13 | The cleaned text neither starts nor ends with one of the characters of "```json". |
| Mining.NewlineEscapesRemoved | app/services/video/mining.py:12 | Each backslash-n pair is deleted: the length drops by 2 per occurrence. |
| Mining.CleanPlainText | app/services/video/mining.py:12-13 | Text without backslashes is only stripped of the fence characters. |
| Strings.Split | app/services/video/mining.py:19 | `str.split` gives at least one part. |
| Strings.SplitJoin | tests/skywalking/bdp_api/redis_client.py:36 | Splitting the joined parts gives the parts back. |
| Strings.JoinSplit | app/services/video/mining.py:38 | Joining the split parts gives the text back. |
| Strings.StripShape | app/services/video/mining.py:13 | `strip(chars)` removes a prefix and a suffix made of those characters, leaving a middle that neither starts nor ends with one. |
| Strings.StripAll | tests/skywalking/bdp_api/redis_client.py:24 | Text made only of stripped characters strips to "". |
| Strings.ParseIntOfString | app/services/video/mining.py:19 | int(str(i)) == i. |
| Strings.NatToStringValue | app/services/video/mining.py:34 | str(n) of a natural number reads back as n. |
| Strings.ReplaceLength | app/services/video/mining.py:12 | replace changes the length by (len(rep) - len(pat)) per occurrence. |
| Strings.PadNatValue | app/utils/common.py:57 | A zero-padded number reads back as the number. |
| Strings.PadNatInjective | app/utils/common.py:57 | Distinct numbers pad to distinct texts. |
| Strings.Find | app/tests/model_evaluation/ui.py:173 | Find gives the first occurrence, or None when there is none. |
| Strings.BaseName | app/services/video/mining.py:60 | The base name is the suffix after the last '/'. |
| Strings.PathJoin | app/services/video/mining.py:61 | The joined path ends with the name. |
| Sorting.SortCorrect | app/utils/milvus_operator.py:181 | The sort is ascending by key and a permutation of its input. |
| Sorting.SortStable | app/utils/milvus_operator.py:181 | The sort is stable: elements with equal keys keep their order. |
| Sorting.SortDescendingCorrect | app/tests/model_evaluation/visualization.py:172 | The reverse sort is descending, a permutation, and stable. |
| EmbeddingFactory.Factory.constructor | app/utils/embedding_factory.py:13-16 | Both slots start empty. |
| EmbeddingFactory.Factory.Resolve | app/utils/embedding_factory.py:28-29 | A None type resolves to the configured type. |
| EmbeddingFactory.Factory.CreateEmbedding | app/utils/embedding_factory.py:19-38 | An empty slot gets a fresh embedding of the requested kind (CLIP or MULTIMODAL); a filled slot returns the stored object. Only the requested slot changes. |
| Response.ApiResponse | app/utils/response.py:5-11 | The success envelope has the keys msg, code and data. |
| Response.ErrorResponse | app/utils/response.py:13-21 | The error envelope has the keys msg, code and data. |
| Response.EnvelopesReadBack | app/utils/response.py:5-21 | Success is msg "success", code 0 and the data. Error is msg "error", the code (500 by default) and data.error. |
| Response.ApiHandler | app/utils/response.py:23-35 | A return is (result, 200). A ValueError is an error body with status 400; any other exception is one with status 500. |
| Response.ErrorStatusMatchesBody | app/utils/response.py:29-34 | On an exception the body's code equals the status, which is 400 exactly for a ValueError. |
| Paginator.NextPage | app/tests/model_evaluation/model_evaluation.py:36-65 | At the end it is StopIteration. An empty page is StopIteration without advancing. A page is the query (page_size, offset) and advances by page_size. A failure keeps the offset. |
| Paginator.Paginator.constructor | app/tests/model_evaluation/model_evaluation.py:14-30 | The offset starts at 0, and the total is the row count at construction. |
| Paginator.Paginator.Next | app/tests/model_evaluation/model_evaluation.py:36-65 | `__next__` steps the state exactly as NextPage does. |
| Paginator.Slice | app/tests/model_evaluation/model_evaluation.py:49-55 | A fixed collection's page is the records from offset, at most limit of them. |
| Paginator.SliceTail | app/tests/model_evaluation/model_evaluation.py:49-60 | A page followed by the rest from offset+page_size is the rest from offset. |
| Paginator.PagesCoverRecords | app/tests/model_evaluation/model_evaluation.py:36-61 | On a fixed collection, iteration never fails, and the concatenated pages are exactly the records from the offset, in order. Every page holds between 1 and page_size records. |
| Paginator.PagesConcat | app/tests/model_evaluation/model_evaluation.py:38-61 | The concatenated pages equal the stored records from the offset. |
| Paginator.PagesBounded | app/tests/model_evaluation/model_evaluation.py:49-61 | With a query that honours its limit, no page is empty or larger than page_size. |
| Paginator.PagesStep | app/tests/model_evaluation/model_evaluation.py:49-61 | One step of iteration yields the next slice and continues from offset + page_size. |
| Paginator.FixedCollectionHonoursLimit | app/tests/model_evaluation/model_evaluation.py:49-55 | A fixed collection's query honours its limit. |
| Paginator.FailingQueryYieldsNothing | app/tests/model_evaluation/model_evaluation.py:63-65 | A query that always fails yields no page and raises. |
| EvaluationReport.CountModelTags | app/tests/model_evaluation/visualization.py:44-47 | The loop over original_tags equals its specification. |
| EvaluationReport.CountEntries | app/tests/model_evaluation/visualization.py:50-68 | The loop over wrong or missed entries equals its specification. |
| EvaluationReport.RecomputeCorrectMethod | app/tests/model_evaluation/visualization.py:71-73 | The correct-recomputation loop equals its specification. |
| EvaluationReport.ProcessRecord | app/tests/model_evaluation/visualization.py:33-73 | The body for one record equals its specification. |
| EvaluationReport.CalculateStatistics | app/tests/model_evaluation/visualization.py:15-75 | `calculate_statistics` equals its specification, including its TypeError on an unhashable entry. |
| EvaluationReport.AddEntriesErrPersists | app/tests/model_evaluation/visualization.py:51-67 | Once an entry raises, the rest of the entries change nothing. |
| EvaluationReport.FoldErrPersists | app/tests/model_evaluation/visualization.py:33-73 | Once a record raises, the rest change nothing. |
| EvaluationReport.PutWellFormed | app/tests/model_evaluation/visualization.py:25-31 | Updating a non-empty tag keeps the tag table well-formed. |
| EvaluationReport.AddModelTagsGet | app/tests/model_evaluation/visualization.py:44-47 | A tag's model_tags and total rise by its number of occurrences in original_tags. Falsy tags are ignored. |
| EvaluationReport.AddEntriesGet | app/tests/model_evaluation/visualization.py:50-68 | A tag's wrong count (or its missed count and total) rises by its number of occurrences. Entries are dicts with 'tag' or bare values; falsy ones are ignored. |
| EvaluationReport.RecomputeOverGet | app/tests/model_evaluation/visualization.py:71-73 | Recomputation keeps the keys and sets correct = model_tags - wrong on every truthy tag visited. |
| EvaluationReport.RecomputeCorrectWellFormed | app/tests/model_evaluation/visualization.py:71-73 | Recomputation keeps the table well-formed. |
| EvaluationReport.RecomputeCorrectGet | app/tests/model_evaluation/visualization.py:71-73 | After recomputation every tag has correct = model_tags - wrong. |
| EvaluationReport.FoldWellFormed | app/tests/model_evaluation/visualization.py:33-73 | The statistics table stays well-formed. |
| EvaluationReport.FoldTotals | app/tests/model_evaluation/visualization.py:17-41 | total_tags and correct_tags are sums of the per-record values, each defaulting to 0. wrong_tags and missed_tags are sums of list lengths. |
| EvaluationReport.FoldCounts | app/tests/model_evaluation/visualization.py:33-73 | Each tag's statistics are its occurrence counts over all records: total = model_tags + missed and correct = model_tags - wrong. A tag is present iff it occurs at all. |
| EvaluationReport.StatisticsCounts | app/tests/model_evaluation/visualization.py:15-75 | Per tag, the counts are exactly those occurrence counts; total_videos is the number of records; the totals are the sums. |
| EvaluationReport.AddModelTagsWellFormed | app/tests/model_evaluation/visualization.py:44-47 | Counting model tags keeps the table well-formed. |
| EvaluationReport.AddEntriesWellFormed | app/tests/model_evaluation/visualization.py:51-67 | Counting entries keeps the table well-formed. |
| EvaluationReport.AddEntriesFails | app/tests/model_evaluation/visualization.py:52-57 | Counting fails iff some entry is a dict without 'tag' (unhashable as a key). |
| EvaluationReport.FoldFails | app/tests/model_evaluation/visualization.py:33-73 | The statistics fail iff some record holds such an entry. |
| EvaluationReport.TagRowsOver | app/tests/model_evaluation/visualization.py:146-169 | There is at most one row per tag visited. |
| EvaluationReport.TagRowsOverRows | app/tests/model_evaluation/visualization.py:146-169 | Rows are built from the statistics, and falsy tags are skipped. |
| EvaluationReport.AnalysisOf | app/tests/model_evaluation/visualization.py:325-335 | One analysis row per tag row. |
| EvaluationReport.BuildTagRows | app/tests/model_evaluation/visualization.py:146-169 | The tag-row loop equals its specification. |
| EvaluationReport.BuildAnalysis | app/tests/model_evaluation/visualization.py:325-335 | The analysis loop equals its specification. |
| EvaluationReport.GenerateEvaluationReport | app/tests/model_evaluation/visualization.py:77-361 | The integer part of the report equals its specification. |
| EvaluationReport.AnalysisOfRows | app/tests/model_evaluation/visualization.py:325-335 | Analysis row i has the cleaned tag, the recall total as sample size, and the counts of tag row i. |
| EvaluationReport.TagDataRows | app/tests/model_evaluation/visualization.py:146-172 | tag_data is sorted descending by recall_total = model_tags - wrong + missed. It holds exactly the rows of the table's truthy tags. |
| EvaluationReport.ReportRows | app/tests/model_evaluation/visualization.py:99-347 | A successful report carries the statistics as computed, with one analysis row per tag row, in order. |
| EvaluationReport.NoRecordsGiveZeroReport | app/tests/model_evaluation/visualization.py:79-97 | No records, or a load failure, give the all-zero report. |
| EvaluationReport.FailureKeepsVideoCount | app/tests/model_evaluation/visualization.py:349-361 | A failure after loading gives the zero report, except that total_videos is the number of records. |
| EvaluationReport.CleanTagFormatUnchanged | app/tests/model_evaluation/visualization.py:318-322 | A tag without ": " is returned unchanged. |
| EvaluationReport.CleanTagFormatSpec | app/tests/model_evaluation/visualization.py:318-322 | Otherwise the result is the text between the first ": " and the next one (or the end), with no ": " inside. |
| EvaluationReport.CleanTagFormatExample | app/tests/model_evaluation/ui.py:171-175 | "a: b: c" gives "b"; "plain" gives "plain". |
| EvaluationReport.CorrectCanBeNegative | app/tests/model_evaluation/visualization.py:71-73 | A tag marked wrong but never predicted gets correct == -1. |
| EvaluationUi.CurrentTags | app/tests/model_evaluation/ui.py:183-187 | There is one cleaned tag per tag. |
| EvaluationUi.CurrentTagsElements | app/tests/model_evaluation/ui.py:186-187 | Tag k is clean_tag_format of tag k. |
| EvaluationUi.Tallied | app/tests/model_evaluation/ui.py:335-339 | A submission raises processed_videos by one and leaves total_videos alone. |
| EvaluationUi.TallyBalanced | app/tests/model_evaluation/ui.py:316-339 | The totals rise by the video's counts, and total = correct + wrong is preserved. |
| EvaluationUi.Session.constructor | app/tests/model_evaluation/ui.py:11-33 | A fresh session has no keys set. |
| EvaluationUi.Session.InitSessionState | app/tests/model_evaluation/ui.py:11-33 | Each key is set only when absent, so a second call changes nothing. The paginator starts at offset 0. |
| EvaluationUi.Session.LoadCurrentVideo | app/tests/model_evaluation/ui.py:35-53 | Pages are loaded into the cache while the index is past its end. The result is the cached video at the index, or None on exhaustion, an empty page or a failure. The cache only grows. |
| EvaluationUi.LoadFromConsistent | app/tests/model_evaluation/ui.py:35-53 | On a fixed collection, loading index i returns record i, or None exactly when i is outside the collection. The cache stays equal to the records before the offset. |
| EvaluationUi.Session.HasMoreAsWritten | app/tests/model_evaluation/ui.py:383-394 | At the last cached video the probe consumes a page and reports whether it was non-empty. The page is not cached. |
| EvaluationUi.Session.HasMore | app/tests/model_evaluation/ui.py:383-394 | The same probe, with the fetched page appended to the cache. |
| EvaluationUi.KeptPageStaysConsistent | app/tests/model_evaluation/ui.py:385-392 | Keeping the probed page keeps the cache equal to the records before the offset. |
| EvaluationUi.DroppedPageBreaksConsistency | app/tests/model_evaluation/ui.py:385-392 | Dropping a probed page leaves the cache behind the offset. |
| EvaluationUi.ProbeSkipsVideo | app/tests/model_evaluation/ui.py:383-394 | With 101 videos, the probe at index 99 consumes video 101. Loading index 100 then gives None, though keeping the page would give video 101. |
| EvaluationUi.Videos101 | app/tests/model_evaluation/ui.py:33 | A collection one video longer than a page of 100. |
| EvaluationUi.Session.ClearEvaluationStates | app/tests/model_evaluation/ui.py:349-365 | Exactly the widget keys with the six prefixes are deleted, and wrong_tags and missed_tags are reset to []. Nothing else changes. |
| EvaluationUi.ClearedSpec | app/tests/model_evaluation/ui.py:352-360 | Removal is idempotent, removes exactly the prefixed keys, and keeps the other values. |
| EvaluationUi.FixedKeysNeverCleared | app/tests/model_evaluation/ui.py:352-360 | None of the keys initialised at ui.py lines 13-33 starts with a cleared prefix, so clearing never removes them. |
| EvaluationUi.Session.SubmitEvaluation | app/tests/model_evaluation/ui.py:312-339 | The results hold total = the number of current tags and correct = that minus the wrong tags. The counters rise accordingly; nothing else changes. |
| Watermark.SliceBound | app/scripts/video_remove_watermark/remove_image_watermark.py:156 | A Python slice bound lands in [0, n], and a negative bound counts from the end. |
| Watermark.MaskRegion | app/scripts/video_remove_watermark/remove_image_watermark.py:151-156 | The box is widened by 2 and clamped into the frame: x1, y1 >= 0, x2 <= width, y2 <= height. |
| Watermark.CreateMask | app/scripts/video_remove_watermark/remove_image_watermark.py:147-157 | A fresh height-by-width array is returned, so the frame is untouched; every cell is the mask-cell value. |
| Watermark.FillRow | app/scripts/video_remove_watermark/remove_image_watermark.py:156 | One row of the slice assignment sets the columns [left, right) to 255 and nothing else. |
| Watermark.CellsBinary | app/scripts/video_remove_watermark/remove_image_watermark.py:150-156 | Every cell is 0 or 255. |
| Watermark.NonNegativeBoxCells | app/scripts/video_remove_watermark/remove_image_watermark.py:151-156 | For non-negative coordinates, a cell is 255 iff it lies in the widened box (half-open). |
| Watermark.BoxCovered | app/scripts/video_remove_watermark/remove_image_watermark.py:151-156 | The detected box itself is covered wherever it lies in the frame. |
| Watermark.InvertedBoxMasksNothing | app/scripts/video_remove_watermark/remove_image_watermark.py:151-156 | A box inverted by at least 4 in one direction masks nothing. |
| Watermark.NegativeRightEdgeCountsFromEnd | app/scripts/video_remove_watermark/remove_image_watermark.py:153-156 | A right edge of -3 becomes the slice end -1, which masks up to the last column rather than nothing. |
| RedisCategory.EndpointsFor | tests/skywalking/bdp_api/redis_client.py:9-21 | The dev and prod endpoints use the storage-manager service and port 6379. Otherwise the master host, port 30191 and the default validation path are used. |
| RedisCategory.ProjectOrDefault | tests/skywalking/bdp_api/redis_client.py:22-23 | A project of None or "" becomes "public"; any other project is kept. |
| RedisCategory.Validate | tests/skywalking/bdp_api/redis_client.py:8-59 | A blank category raises first. A failed lookup or a denied app key gives exactly the generic "Could not validate" error. A found, authorised record without expireMs gives the connect error. Construction succeeds iff the record is found, authorised and has expireMs. It then keeps the stripped names, the cluster address and the expiry, with a non-positive one as None. |
| RedisCategory.WhitespaceCategoryRejected | tests/skywalking/bdp_api/redis_client.py:24-25 | An all-whitespace category name is rejected. |
| RedisCategory.VisibleCategoryNotBlank | tests/skywalking/bdp_api/redis_client.py:24 | A name with a visible character is not blank. |
| RedisCategory.DenialLooksLikeMissingCategory | tests/skywalking/bdp_api/redis_client.py:26-48 | Because of the bare except, an authorisation denial raises the same error as a missing category. |
| RedisCategory.AuthorizedIffListed | tests/skywalking/bdp_api/redis_client.py:33-37 | With authorisation enabled, an app key is admitted iff it is one of the comma-separated entries. |
| RedisCategory.ValidateAdmitsIffListed | tests/skywalking/bdp_api/redis_client.py:26-59 | For a category with authorisation on, listed comma-free keys and an expireMs, construction succeeds iff the app key is listed. |
| RedisCategory.DeniedWithoutListedKey | tests/skywalking/bdp_api/redis_client.py:35-39 | With authorisation enabled, there is a denial when the key is None, the list is None or empty, or the key contains a comma. |
| RedisCategory.OpenCategoryAdmitsAll | tests/skywalking/bdp_api/redis_client.py:32-33 | With enableAuthorization other than 1, every key is admitted. |
| RedisCategory.Wrap | tests/skywalking/bdp_api/redis_client.py:446-447 | The stored key is project + "_" + category + "_" + key. |
| RedisCategory.WrapInjective | tests/skywalking/bdp_api/redis_client.py:446-447 | Within one category, distinct keys stay distinct. |
| RedisCategory.NamespacesCanOverlap | tests/skywalking/bdp_api/redis_client.py:446-447 | ("a_b","c") and ("a","b_c") share their key space. |
| RedisCategory.EffectiveExpiry | tests/skywalking/bdp_api/redis_client.py:90-93 | A positive expire_ms is used as given; otherwise the category default applies. |
| RedisCategory.ExpiryPositive | tests/skywalking/bdp_api/redis_client.py:55-95 | Every expiry that set sends is positive. |
| RedisCategory.Lookup | tests/skywalking/bdp_api/redis_client.py:102-103 | GET of a stored name gives its value; a missing name gives None. |
| RedisCategory.ExistsReply | tests/skywalking/bdp_api/redis_client.py:67 | EXISTS replies with the integer 1 or 0. |
| RedisCategory.CollectLastWins | tests/skywalking/bdp_api/redis_client.py:123-125 | With duplicate keys, the last position wins. |
| RedisCategory.CollectKeys | tests/skywalking/bdp_api/redis_client.py:123-125 | Every result key was requested. |
| RedisCategory.MGetReply | tests/skywalking/bdp_api/redis_client.py:122 | MGET replies with one value per name, in order. |
| RedisCategory.WrapMap | tests/skywalking/bdp_api/redis_client.py:113-115 | Each key is wrapped with its value. |
| RedisCategory.WrapMapStep | tests/skywalking/bdp_api/redis_client.py:114-115 | One more key in the wrapping loop adds its wrapped entry. |
| RedisCategory.Category.Key | tests/skywalking/bdp_api/redis_client.py:446-447 | A key is wrapped with this category's stripped project and name. |
| RedisCategory.Category.ExistsAsWritten | tests/skywalking/bdp_api/redis_client.py:64-70 | The result is always False. |
| RedisCategory.Category.Exists | tests/skywalking/bdp_api/redis_client.py:64-70 | The corrected exists is True iff the key is non-blank and stored. |
| RedisCategory.Category.Delete | tests/skywalking/bdp_api/redis_client.py:72-75 | A blank key gives None and changes nothing. Otherwise the wrapped key and its expiry are removed, and the reply is 1 or 0. |
| RedisCategory.Category.Set | tests/skywalking/bdp_api/redis_client.py:87-95 | A blank key or a None value gives None. nx with xx raises. Otherwise the NX/XX conditions decide, the value is stored with the effective expiry (or no expiry), and the reply is True or None. |
| RedisCategory.Category.Get | tests/skywalking/bdp_api/redis_client.py:102-103 | There is no guard: a None key is a TypeError, and any other key is looked up wrapped. |
| RedisCategory.Category.StrLen | tests/skywalking/bdp_api/redis_client.py:128-131 | A blank key gives 0; otherwise the length of the stored value, or 0. |
| RedisCategory.Category.MGet | tests/skywalking/bdp_api/redis_client.py:118-126 | None gives None. Otherwise each requested key maps to the value at its position, and the last duplicate wins. |
| RedisCategory.Category.MSet | tests/skywalking/bdp_api/redis_client.py:110-116 | None gives None. Otherwise every wrapped key is stored, and its expiry is cleared. |
| RedisCategory.MGetReadsStore | tests/skywalking/bdp_api/redis_client.py:118-126 | Every requested key maps to its wrapped key's stored value. |
| RedisCategory.MGetKeys | tests/skywalking/bdp_api/redis_client.py:118-126 | The result keys are exactly the requested keys. |
| RedisCategory.MSetThenMGet | tests/skywalking/bdp_api/redis_client.py:110-126 | An mget after an mset reads back the values set. |
| RedisCategory.ExistsDiscrepancy | tests/skywalking/bdp_api/redis_client.py:67 | The reply for a stored key is the integer 1, never the string '1'. |

## Left out

- Decoding and encoding are not modelled: cv2 capture and imwrite, ffmpeg probe and run, JPEG and base64. The key-frame selector returns the frames it would encode as data URLs.
- `np.mean(diff) > 30` is stated multiplied out by the pixel count, over integer pixels. All frames of a video have one size.
- fps is a natural number, and `interval_sec` is given in milliseconds (`int(fps * interval_sec)` as `fps * ms / 1000`). `frame_interval` of `extract_frames_from_video` is a whole number of seconds. Fractional frame rates are not modelled.
- FrameIngest.ExtractFrames: requires N > 0. With N == 0 the source re-reads frame 0 forever.
- FrameIngest.UpdateVideoVectorInsertsEveryId: stated only for folders in which every entry that yields a frame has a positive fps (entries with no frames, such as files that are not videos, are covered). With fps 0 and a readable frame, `int((frame_idx * N) / fps)` raises after three of the four columns have been appended, and the next frame reuses the id. The model computes that case but the lemma excludes it. The same restriction applies to FrameIngest.UpdateVideoVectorBatchSizes and FrameIngest.UpdateVideoVectorInsertsRecords.
- FrameIngest.UpdateVideoVectorInsertsEveryId: when some insert fails, only the m_id column is tied to the run. A failed insert inside a video's `try` abandons the rest of that video, so the rows depend on where failures fall. The full rows (embedding, path, at_seconds) are stated only for runs without failed inserts, in FrameIngest.UpdateVideoVectorInsertsRecords.
- `encode_frames` (app/services/video/updata_video_vector.py:35-47) is a torch batching helper that nothing else calls, so it is not modelled.
- `np.int32` conversion of timestamps is not modelled; the values are unbounded integers.
- The directory listing order is the order of the given sequence.
- Embedding models, `_is_valid_url`, `os.path.isfile`, the image loaders and `Config.get_embedding_model_type` are function parameters. Embeddings are integer vectors; distances are integers and only their order matters.
- The Milvus connection, `Collection`, `load` and `release` are booleans or functions in the model; pymilvus itself is not modelled.
- Metadata.VideoStore.Add: the store is a map from path, so it holds one record per path. "Only the first record returned by `get_by_path` is enriched" is trivially true here.
- `secure_filename`, the OSS upload and `generate_video_thumbnail_url` are parameters. The last is not defined in app/utils/minio_uploader.py.
- From app/services/video/mining.py, `json.loads`, the LLM services and `os.remove` of the thumbnail are left out. Only the string cleaning of `parse_json_string` is modelled.
- Python's `int()` is modelled with optional ASCII whitespace, an optional sign and digits; underscores and non-ASCII digits are not accepted. `strip()` uses ASCII whitespace.
- Accuracy and recall percentages are floats, and the charts, `write_html` and the JSON dump are output steps. The success or failure of those steps is the `outputsOk` parameter; the percentages are not modelled.
- From visualization.py, `load_evaluation_records` is left out; its result is an optional record list.
- Streamlit rendering is left out. So are the navigation buttons' index changes, `save_evaluation_record`, and the per-tag time/start/end widget values copied into a submission.
- Among the initial evaluation counters, `accuracy_by_type`, `tag_distribution` and `error_cases` are left out.
- A failed query inside `load_current_video` is folded into its None result.
- `clean_tag_format` at app/tests/model_evaluation/ui.py:171-175 is the same function as the nested one in visualization.py and is modelled once.
- `get_video_paginator` (app/tests/model_evaluation/model_evaluation.py:68-) does connection setup and is not modelled; the row count is a parameter.
- `smart_resize`, `detect_watermark` and its bbox scaling, and `cv2.inpaint` are left out. Only `create_mask` is modelled; its copy in app/scripts/video_remove_watermark/test.py:48-58 is the same function.
- For the Redis client, these are not modelled:
  - the remaining operations (`expire`, `type`, `setnx`, `getset`, `incr` and the hash, list, set and sorted-set commands);
  - the connection pool, the password and `__del__`;
  - `requests` and JSON decoding, which are the `fetch` parameter (`None` for a missing response or a non-200 status).
- RedisCategory.Category.MGet: an MGET with no keys gives an empty map, because the server's arity error is not modelled.
- RedisCategory.Category.StrLen: counts characters; Redis counts UTF-8 bytes.
- RedisCategory.Category.MSet: an empty dictionary is stored as a no-op, because the server's arity error is not modelled.
- VectorStore.IdFilter: ids are integers, matching the INT64 `m_id` field, although `query_by_ids` and `delete_by_ids` declare `List[str]`. With string ids `str(id)` is the identity, and a non-numeric id would give a malformed filter; that case is not modelled.
- EvaluationReport.CalculateStatistics: a record's `wrong_tags` and `missed_tags` are a list or missing (`None` in the model, read as `[]` by `.get(..., [])`). A JSON null stored under either key, on which `len(...)` raises TypeError, cannot be represented.
- Mining.FormatMiningResult: any failure of the thumbnail step is a single error kind. The ValueError for an empty URL and the RuntimeError of `generate_thumbnail_from_video` are not told apart; FrameFiles.GenerateThumbnail distinguishes them.
- VideoSearch.Search: the store's `search_video` is a total function, so a raising `search_video` (app/services/video/search.py:63) is not represented.
- Logging, `print` and timing are left out everywhere.

## Findings

| source | as written | input that shows it | evidently intended | confidence | as-written member | corrected member |
|---|---|---|---|---|---|---|
| app/tests/model_evaluation/ui.py:385-392 | The "has more" probe calls `next(paginator)` at the last cached video and discards the page it fetched. | A collection of 101 videos with page size 100, viewed at index 99. The probe consumes video 101, so loading index 100 returns None. | The probed page is appended to `video_cache` (or only peeked at), so every video stays reachable. | not executed | EvaluationUi.Session.HasMoreAsWritten, EvaluationUi.ProbeSkipsVideo, EvaluationUi.DroppedPageBreaksConsistency | EvaluationUi.Session.HasMore, EvaluationUi.KeptPageStaysConsistent, EvaluationUi.LoadFromConsistent |
| tests/skywalking/bdp_api/redis_client.py:67 | `exists` compares the integer EXISTS reply with the string '1', so it returns False for every key. | Any stored non-empty key. | Compare with the integer 1 (or test for a positive reply). | not executed | RedisCategory.Category.ExistsAsWritten, RedisCategory.ExistsDiscrepancy | RedisCategory.Category.Exists |
