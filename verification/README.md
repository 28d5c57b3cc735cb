# Market data path and limit order book, in Dafny

This project models the core of a low-latency market data system and of a
price-time priority limit order book, and proves properties of the model.

- **Tick record** (`market_data.dfy`, module `MarketDataRecord`): the
  `MarketData` record with its 16-byte instrument field. The two
  constructors are modelled as methods. Each clears a 16-byte buffer
  (`memset`) and copies at most 15 characters into it (`strncpy`). The
  proofs show the name is always NUL-terminated and zero-padded.
- **SPSC ring buffer** (`ring_buffer.dfy`, module `RingBuffers`): a class
  holding a 1024-slot array and the two cursors. `Push`, `Pop`, `Empty`,
  `Full` and `Size` are proved against a ghost queue of resident records.
  A reference FIFO with drop-newest-when-full (`QueueRun`) is shown to lose,
  reorder and duplicate nothing. A replay of any sequence of operations on
  a real buffer is shown to deliver exactly what the reference delivers.
- **Wire codec** (`utils.dfy`, module `Utils`):
  - `to_json` renders the one-line frame.
  - The `sscanf` pattern of `from_json` is modelled conversion by
    conversion.
  - The ".nnnnnnnnn" suffix of `format_timestamp` is modelled.
  - Decoding an encoded record gives back the name and timestamp exactly
    and each price rounded to two decimals.
  - Malformed frames are rejected and leave the target record untouched.
- **Order book** (`order_book.dfy`, module `OrderBooks`): a class with the
  five maps of the source, namely bid and ask queues, bid and ask levels and
  the order index.
  - `addorder`, `cancelorder`, `amendorder` and `get_snapshot` are methods
    proved against pure functions on a `BookState` value.
  - Each operation preserves one invariant: every level total is the sum of
    its queue modulo 2^64, a level exists exactly when its queue does, and
    the index and the queues agree.
  - Cancel undoes add.
  - A snapshot lists the best `depth` levels of each side in the side's
    order.

Shared definitions are in `base.dfy` (module `Base`: `Option`, 64-bit
unsigned values and their wrap-around, and the C-string view of a buffer)
and `digits.dfy` (module `Digits`: decimal text and its value).

Modelling choices:
- The `double` prices of the tick record are `real`. `%.2f` rounds to the
  nearest hundredth, and a value exactly halfway between two hundredths
  goes to the even one, as glibc rounds. `%lf` reads an optional sign,
  digits, and an optional '.' followed by digits.
- `%llu` reads a run of digits. A value above 2^64 - 1 reads as 2^64 - 1,
  as `strtoull` saturates.
- Order-book prices are integers, because the book only compares them and
  uses them as map keys.
- The source reaches an order through a `std::deque` iterator. The model
  finds it in its queue by id (`Locate`).

## Model

| member | source | states |
|---|---|---|
| Base.CString | MarketDataSystem/include/utils.h:51 | A C-string reader (`c_str()`, `%s`) sees a NUL-free prefix of the buffer that ends at the first NUL, or the whole buffer when it has none. |
| Base.CStringOfPlainPrefix | MarketDataSystem/include/market_data.h:20 | A NUL-free prefix is read in full, and reading continues into what follows it. |
| Base.Wrap | OrderBook/order_book.cpp:42 | `uint64_t` arithmetic: the result is congruent to the true value modulo 2^64, and a value already in range is unchanged. |
| MarketDataRecord.KeptName | MarketDataSystem/include/market_data.h:20 | The kept name is a NUL-free prefix of the source C string with at most 15 characters. It is the whole C string when that is shorter than 15. |
| MarketDataRecord.InstrumentField | MarketDataSystem/include/market_data.h:19-20 | After `memset` and `strncpy(…, 15)`, byte 15 is NUL. The field read as a C string is the kept name. Every byte after the name is zero. |
| MarketDataRecord.Memset | MarketDataSystem/include/market_data.h:14 | Every byte of the fresh 16-byte buffer is zero. |
| MarketDataRecord.StrncpyBytes | MarketDataSystem/include/market_data.h:20 | The n bytes `strncpy` writes: position i holds the i-th character of the source C string while there is one, and NUL after it. |
| MarketDataRecord.Strncpy | MarketDataSystem/include/market_data.h:20 | The first n bytes are the source C string cut at n and padded with NUL to n. Bytes from n on are untouched. |
| MarketDataRecord.CopyInstrument | MarketDataSystem/include/market_data.h:19-20 | The loop-based memset and strncpy produce exactly the instrument field. |
| MarketDataRecord.DefaultMarketData | MarketDataSystem/include/market_data.h:13-15 | Every instrument byte is zero, both prices are 0.0 and the timestamp is 0. The record is well formed with an empty name. |
| MarketDataRecord.NewMarketData | MarketDataSystem/include/market_data.h:17-21 | Prices and timestamp are stored as given. The instrument is the name cut to 15 characters and zero-padded. The record is well formed. |
| RingBuffers.Occupancy | MarketDataSystem/include/ring_buffer.h:60-64 | The cursor distance is below N. It is 0 exactly when the cursors are equal, and N - 1 exactly when the slot after `push` is `pop`. Stepping it forward from `pop` reaches `push`. |
| RingBuffers.OccupancyAfterPush | MarketDataSystem/include/ring_buffer.h:24-30 | Advancing the write cursor when the buffer is not full adds exactly one record. |
| RingBuffers.OccupancyAfterPop | MarketDataSystem/include/ring_buffer.h:39-45 | Advancing the read cursor when the buffer is not empty removes exactly one record. |
| RingBuffers.HoldsAfterPush | MarketDataSystem/include/ring_buffer.h:29-30 | Writing the slot after the last resident record and appending that record keeps the slots, read from `pop` around the ring, equal to the queue. |
| RingBuffers.HoldsAfterPop | MarketDataSystem/include/ring_buffer.h:43-45 | The oldest record is in slot `pop`. Advancing `pop` and dropping that record keeps the slots equal to the queue. |
| RingBuffers.RingBuffer.constructor | MarketDataSystem/include/ring_buffer.h:14-17 | Both cursors are 0, every slot holds a default record and the queue is empty. |
| RingBuffers.RingBuffer.Push | MarketDataSystem/include/ring_buffer.h:20-32 | Push fails exactly when `(push + 1) % 1024 == pop`, that is when 1023 records are resident, and then changes nothing. On success it writes slot `push`, advances the cursor and appends the record to the queue. The read cursor is untouched. |
| RingBuffers.RingBuffer.Pop | MarketDataSystem/include/ring_buffer.h:35-47 | Pop fails exactly when the cursors are equal, and then leaves `data` as it was. On success it yields the oldest record, from slot `pop`, advances the cursor and drops the record from the front. The slots and the write cursor are untouched. |
| RingBuffers.RingBuffer.Empty | MarketDataSystem/include/ring_buffer.h:49-52 | True exactly when the size is 0, that is when no record is resident. |
| RingBuffers.RingBuffer.Full | MarketDataSystem/include/ring_buffer.h:54-58 | True exactly when the size is 1023, that is when the next push fails. |
| RingBuffers.RingBuffer.Size | MarketDataSystem/include/ring_buffer.h:60-64 | `(push + 1024 - pop) % 1024` is the number of resident records, at most 1023. |
| RingBuffers.QueueRunConserves | MarketDataSystem/include/ring_buffer.h:20-47 | In the reference queue, the records delivered followed by those resident are exactly the records accepted, with no loss, reordering or duplication. At most 1023 are resident. |
| RingBuffers.Replay | MarketDataSystem/include/ring_buffer.h:20-47 | Any sequence of pushes and pops on a fresh buffer accepts and delivers exactly what the reference queue does. The delivered records are a prefix of the accepted ones, at most 1023 short. |
| RingBuffers.FillThenDrainOne | MarketDataSystem/include/ring_buffer.h:10-47 | From empty, exactly 1023 pushes succeed and the next one fails. After one pop, a push succeeds again. |
| Digits.Decimal | MarketDataSystem/include/utils.h:37 | `%lu` text: at least one character, all digits, and no leading '0' unless the value is 0. |
| Digits.ValueOfDecimal | MarketDataSystem/include/utils.h:37 | The digits of `Decimal(n)` denote n. |
| Digits.ZeroPad | MarketDataSystem/include/utils.h:28 | `setw` with `setfill('0')`: the result is at least `width` long. It ends with the original text, and everything before it is '0'. |
| Utils.WholeSeconds | MarketDataSystem/include/utils.h:20 | The whole seconds s satisfy s·10^9 ≤ ts < (s+1)·10^9. |
| Utils.NanosSuffix | MarketDataSystem/include/utils.h:28 | The suffix is '.' followed by exactly nine digits. |
| Utils.NanosSuffixValue | MarketDataSystem/include/utils.h:20-28 | The nine digits denote `ts % 10^9`, so whole seconds and suffix together give back the timestamp. |
| Utils.Hundredths | MarketDataSystem/include/utils.h:37 | The hundredths `%.2f` prints are within 0.5 of 100 times the price, and even when the price is exactly halfway between two hundredths. |
| Utils.HundredthsUnique | MarketDataSystem/include/utils.h:37 | Any integer that meets that nearest-and-ties-to-even rule is `Hundredths(p)`, so the rule fixes the printed digits. |
| Utils.Rounded | MarketDataSystem/include/utils.h:37 | The value `%.2f` prints is within 0.005 of the price. |
| Utils.RenderPrice | MarketDataSystem/include/utils.h:37 | `%.2f` text holds only digits, '-' and '.', so it has no NUL and no quote. |
| Utils.RenderedChars | MarketDataSystem/include/utils.h:37 | The `%.2f` text of h hundredths has only digits, '-' and '.'. It starts with '-' exactly when h < 0 and ends with '.' and two digits. |
| Utils.HundredthsRoundTrip | MarketDataSystem/include/utils.h:37-52 | `%lf` over the `%.2f` text of h hundredths, followed by a character that cannot continue a number, reads exactly h / 100 and stops after the two decimals. |
| Utils.PriceRoundTrip | MarketDataSystem/include/utils.h:37-52 | `%lf` over the `%.2f` text of p reads exactly `Rounded(p)` and stops right after the two decimals. |
| Utils.TimestampRoundTrip | MarketDataSystem/include/utils.h:37-52 | `%llu` over the `%lu` text of a timestamp reads exactly that timestamp and stops after its digits. |
| Utils.ScanReal | MarketDataSystem/include/utils.h:52 | A successful `%lf` consumes at least one character, and what is left is a suffix of the input. |
| Utils.ScanMagnitude | MarketDataSystem/include/utils.h:52 | The unsigned part of `%lf` consumes at least one character, and what is left is a suffix of the input. |
| Utils.ScanMagnitudeStart | MarketDataSystem/include/utils.h:52 | The unsigned part of `%lf` matches exactly when the text starts with a digit, or with '.' followed by a digit. The value read is never negative. |
| Utils.ScanU64 | MarketDataSystem/include/utils.h:52 | A successful `%llu` consumes at least one character, and what is left is a suffix of the input. |
| Utils.QuoteFreeRun | MarketDataSystem/include/utils.h:52 | `%15[^"]` reads at most 15 characters, none of them a quote. It stops early only at a quote. |
| Utils.ScanInstrument | MarketDataSystem/include/utils.h:52 | On success, `%15[^"]` captured 1 to 15 characters without a quote, they start the text, and the literal `","bid":` follows them. |
| Utils.ScanBid | MarketDataSystem/include/utils.h:52-54 | On success, the bid stored is the value the first `%lf` read, and the name is the one captured before it. |
| Utils.ScanAsk | MarketDataSystem/include/utils.h:52-55 | On success, the ask stored is the value the second `%lf` read. The name and bid from the earlier conversions are kept. |
| Utils.ScanTimestamp | MarketDataSystem/include/utils.h:52-56 | The last conversion succeeds exactly when `%llu` does. It stores the value read and keeps the name, bid and ask. |
| Utils.ToJson | MarketDataSystem/include/utils.h:34-43 | The frame starts with `{"instrument":"`, ends with `}`, and carries the record's name up to its first NUL right after the opening literal. |
| Utils.Scan | MarketDataSystem/include/utils.h:51-56 | On success, the captured name has 1 to 15 characters and contains no quote and no NUL. |
| Utils.JsonRoundTrip | MarketDataSystem/include/utils.h:34-69 | For a name of 1 to 15 characters without a quote, decoding the frame of a record succeeds. It returns the name and the timestamp exactly and each price rounded to two decimals. |
| Utils.DecodedRecord | MarketDataSystem/include/utils.h:34-69 | For a well-formed record, the decoded name padded back to 16 bytes is the record's instrument field. The timestamp is exact and the prices are rounded to hundredths. |
| Utils.RoundedExample | MarketDataSystem/include/utils.h:37 | 2850.123 prints as 2850.12 and 2850.456 as 2850.46. |
| Utils.RoundedTies | MarketDataSystem/include/utils.h:37 | Exact ties go to the even hundredth: 0.125 prints as 0.12, 2850.125 as 2850.12, 0.375 as 0.38 and -0.125 as -0.12. |
| Utils.RelianceRoundTrip | MarketDataSystem/include/utils.h:34-69 | A RELIANCE tick at 2850.123/2850.456, timestamp 123456789, decodes to RELIANCE, 2850.12, 2850.46, 123456789. |
| Utils.EmptyInstrumentRejected | MarketDataSystem/include/utils.h:52-60 | An empty name fails the match, because `%15[^"]` needs at least one character. |
| Utils.LongInstrumentRejected | MarketDataSystem/include/utils.h:52-60 | A name of 16 or more characters fails the match. The 16th character is not the closing quote. |
| Utils.KeysOutOfOrderRejected | MarketDataSystem/include/utils.h:52-60 | A frame with "ask" before "bid" fails the match. |
| Utils.MissingTimestampRejected | MarketDataSystem/include/utils.h:52-60 | A frame that ends after the ask price fails the match. |
| Utils.NonNumericBidRejected | MarketDataSystem/include/utils.h:52-60 | A bid that starts with none of a sign, a digit, '.', white space or the first letter of "inf" or "nan" fails the match, so the record is left alone. |
| Utils.FromJson | MarketDataSystem/include/utils.h:46-69 | FromJson succeeds exactly when all four conversions match. On success the instrument is the captured name zero-padded to 16 bytes, the prices and timestamp are those read, and the record is well formed. On failure the record is returned unchanged. |
| Utils.SnprintfFrame | MarketDataSystem/include/utils.h:35-42 | `to_json` as written returns the whole frame when it is shorter than 256 characters. At exactly 256, the last character is replaced by NUL. Beyond 256 the copy reads past the buffer and there is no defined result. |
| Utils.SnprintfOverRead | MarketDataSystem/include/utils.h:35-42 | A bid of 10^n with n ≥ 256 gives a frame longer than 256 characters, so the copy in `to_json` reads past `buffer`. |
| OrderBooks.Locate | OrderBook/order_book.cpp:57 | The returned position is the first holding the id, or the queue length when no order has it. |
| OrderBooks.EraseAt | OrderBook/order_book.cpp:62 | `deque::erase` removes one element: orders before it keep their positions and later ones move one forward. |
| OrderBooks.SumQuantityErase | OrderBook/order_book.cpp:60-62 | Erasing an order removes exactly its quantity from the queue's total. |
| OrderBooks.SumQuantityReplace | OrderBook/order_book.cpp:94-97 | Overwriting an order's quantity changes the queue's total by new minus old. |
| OrderBooks.ResolvedRef | OrderBook/order_book.cpp:53-57 | In a valid book, an indexed id names a side and price that have a queue and a level, and the order is in that queue. |
| OrderBooks.Resting | OrderBook/order_book.cpp:86-88 | The order an index entry leads to has that id, side and price. |
| OrderBooks.AddToSide | OrderBook/order_book.cpp:40-42 | The order's price has a queue and a level. The order is pushed to the back of that queue, and the level total grows by its quantity modulo 2^64. No other price changes. |
| OrderBooks.Added | OrderBook/order_book.cpp:38-50 | The id is indexed at the order's side and price. The order's side is `AddToSide` of it, and the other side is unchanged. |
| OrderBooks.SideAddValid | OrderBook/order_book.cpp:40-42 | Appending an order with a fresh id keeps the side valid and indexed: the level total is again the queue's sum modulo 2^64. |
| OrderBooks.AddedValid | OrderBook/order_book.cpp:38-50 | `addorder` with a fresh id keeps the book valid, and the order rests last in the queue at its price. |
| OrderBooks.RemoveAt | OrderBook/order_book.cpp:58-66 | Only price p changes. Its queue and level remain exactly when the queue held more than one order. The queue loses the erased order, and the level total plus its quantity gives back the old total modulo 2^64. |
| OrderBooks.Cancelled | OrderBook/order_book.cpp:52-79 | An unknown id leaves the book as it is. Otherwise the id leaves the index, and the other side is unchanged. |
| OrderBooks.SideRemoveValid | OrderBook/order_book.cpp:58-66 | Erasing an order and subtracting its quantity keeps the side valid, and a queue left empty takes its level with it. |
| OrderBooks.CancelledValid | OrderBook/order_book.cpp:52-79 | `cancelorder` keeps the book valid and unindexes only that id. Every other order is still found, unchanged. |
| OrderBooks.CancelledOther | OrderBook/order_book.cpp:62 | After the erase, another indexed order is still found by id and is the same order. |
| OrderBooks.ReplaceQuantity | OrderBook/order_book.cpp:94-99 | Only price p changes. Order k keeps its place and gets the new quantity, and the level total moves by new minus old modulo 2^64. |
| OrderBooks.ReplaceQuantityValid | OrderBook/order_book.cpp:94-99 | Overwriting a quantity and moving the level total by the wrapped difference keeps the side valid and indexed. |
| OrderBooks.Amended | OrderBook/order_book.cpp:81-102 | An unknown id leaves the book as it is. Otherwise the same ids stay indexed and the other side is unchanged. |
| OrderBooks.AmendedInPlace | OrderBook/order_book.cpp:93-100 | At the same price, the book stays valid, the index is unchanged, the order keeps its queue position and only its quantity changes. |
| OrderBooks.AmendedMoved | OrderBook/order_book.cpp:87-92 | At a new price, the book stays valid. The id is re-indexed to the new price, and the order, keeping its id, side and timestamp, rests last there with the new quantity. |
| OrderBooks.CancelUndoesAdd | OrderBook/order_book.cpp:38-79 | Adding an order with a fresh id and then cancelling it gives back exactly the original book. |
| OrderBooks.BestOf | OrderBook/order_book.cpp:149-152 | Every non-empty set of prices has a best one in the side's order: highest for bids (`std::greater`), lowest for asks. |
| OrderBooks.TopLevels | OrderBook/order_book.cpp:108-116 | The copy loop yields min(depth, number of levels) of the side's levels. They are strictly best-first, and none left out is better than one listed. |
| OrderBooks.OrderBook.constructor | OrderBook/order_book.cpp:148-153 | A new book is empty and valid. |
| OrderBooks.OrderBook.AddOrder | OrderBook/order_book.cpp:38-50 | The new book state is `Added` of the old one, and the invariant is kept. |
| OrderBooks.OrderBook.CancelOrder | OrderBook/order_book.cpp:52-79 | CancelOrder returns true exactly when the id is indexed. The new state is `Cancelled` of the old, so an unknown id changes nothing, and the invariant is kept. |
| OrderBooks.OrderBook.AmendOrder | OrderBook/order_book.cpp:81-102 | AmendOrder returns true exactly when the id is indexed. The new state is `Amended` of the old, and the invariant is kept. |
| OrderBooks.OrderBook.GetSnapshot | OrderBook/order_book.cpp:104-117 | Both outputs are the top `depth` levels of their side: bids highest first, asks lowest first. |

## Left out

- The atomics and memory orders of the ring-buffer cursors. Each push and pop is one sequential step, so concurrency between the producer and the consumer is not modelled.
- `shm_helper.h`, the publisher, the shared-memory and TCP consumers, and the `static_assert` layout checks: process setup, I/O and the network are outside this model.
- `get_timestamp_ns`, and the `HH:MM:SS` part of `format_timestamp`: they depend on the clock and on `localtime`. Only the nanosecond suffix is modelled.
- Utils.ScanReal does not model all of `%lf`:
  - Accepted, but not modelled: leading whitespace, exponents, `inf`/`nan`, hexadecimal floats.
  - Not modelled: the binary rounding of decimal text to `double`.
  - Consequence: a reader that depends on those forms is not covered.
- Utils.ScanU64: the leading white space and the '-' and '+' signs that `%llu` accepts are not modelled.
- Utils.Rounded: real numbers stand in for `double`. Ties go to even on the decimal value, which matches glibc whenever the `double` holds the price exactly (as with 2850.125). A price like 0.005 is a tie here, but its `double` lies slightly above it and prints as 0.01. `-0.00` is printed as `0.00`.
- Utils.NonNumericBidRejected: it covers only bids whose first character cannot start any `%lf` input. A bid starting with white space, "inf", "infinity" or "nan" is read by the source's `%lf`, but the model's Utils.ScanReal does not read it (see above).
- Utils.Scan: text after the timestamp, including the closing `}`, is not examined, as in the source. A frame with trailing garbage is accepted.
- Utils.ToJson: `%lu` is printed in full as an unbounded decimal. On platforms where `long` is 32 bits, the format would not match the `uint64_t` argument.
- `print_book` and `main` of the order book are not modelled: they only print, or drive a fixed scenario.
- The `std::deque` iterators stored in `order_lookup_` are not modelled.
  - `push_back` on a deque invalidates every iterator into it, though no reference.
  - `erase` of an order that is neither first nor last invalidates every iterator into that deque.
  - The source goes on to use the stored iterators of the other orders after both, which is undefined behaviour. Its cancels, amends and level totals are right only if that happens to do no harm.
  - The model finds an order by id instead. So `BookValid` describes the intended behaviour, and it cannot show what the source does once an invalidated iterator is used.
- OrderBooks.OrderBook.AddOrder: requires a fresh order id. The source overwrites the index entry of a reused id, which strands the earlier order outside the index.
- NaN prices in the order book are not modelled, and neither is the map ordering they would break.
- In the class methods, each side is updated through the pure functions `AddToSide`, `RemoveAt` and `ReplaceQuantity`. They are not written statement by statement over the maps as the source does.

## Findings

| source | as written | input that shows it | evidently intended | confidence | as-written member | corrected member |
|---|---|---|---|---|---|---|
| MarketDataSystem/include/utils.h:34-42 | `snprintf` into `char[256]` returns the length the whole frame needs, and `std::string(buffer, len)` copies that many bytes, so a frame of more than 256 characters is copied from beyond the buffer | a record whose bid is 10^300 (a finite `double`), giving a frame longer than 256 characters | the frame is returned in full, and decoding it gives the record back (proved for the corrected frame by Utils.JsonRoundTrip) | not executed | Utils.SnprintfOverRead | Utils.ToJson |
