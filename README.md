# restful core: configuration expansion, contextual logging, traced HTTP client

A Dafny model of the three core files of the `restful` service scaffold:

- **config/config.go** is the key/value configuration of the unnamed INI section.
  - At load time, each value of shape `${NAME}` or `${NAME||default}` is replaced by the environment variable `NAME`. The default applies when the variable is unset or empty.
  - Only the keys whose value changes are written back.
  - `String(key)` reads a value.
- **log/logger.go** is the contextual logger.
  - A `logrusLogger` is an immutable value: a field set and a caller-skip depth.
  - `WithField` derives a logger one frame deeper.
  - A request's context may bind a logger under `ContextLogger`. Resolution falls back to the process-wide logger when no logger is bound.
  - Each emission adds the call site as `file`, `line` and `func`. The call site is taken `skip` frames up the stack. Its file and function name keep only the text from one character past the end of the first `pkg`.
  - `NewLogger` picks the formatter, the level and the host, then replaces the global logger.
- **lib/http.go** is the outbound HTTP client.
  - It builds the request, sets the supplied headers and copies the inbound cookies.
  - It propagates the trace: the tracer's carrier is injected, or the `X-B3-Traceid` correlation string is copied as a fallback.
  - It accepts status codes in [200, 400).
  - A deferred completion record carries the method, the URL and the whole-millisecond delay.

Files:

| file | module | content |
|---|---|---|
| `wrappers.dfy` | `Wrappers` | `Option` and `Result`; `Result.Panic` stands for a Go run-time panic |
| `net.dfy` | `Net` | `http.Header`: canonical MIME keys, `Set`, `Get`, `AddCookie` |
| `config.dfy` | `Config` | placeholder scan, `ExpandValueEnv`, the `Section` class with `InitConfig` and `String` |
| `log.dfy` | `Log` | loggers, contexts, resolution, `WithField`, caller info, emission, `LogState.NewLogger` |
| `http.dfy` | `Lib` | the `Outbound` request class, header and cookie loops, `TraceRequest`, `LogRequest`, `HTTPRequest` |

The environment is passed in as parameters:

- the process environment is an `Env` map;
- the stack that `runtime.Caller` walks is a sequence of frames, and `runtime.Caller(skip)` reads index `skip`;
- the clock readings are integers in nanoseconds;
- the iteration order of the supplied header map is a sequence of pairs;
- the tracer's extraction outcome is a boolean, and what it injects is a sequence of header pairs;
- logrus's `ParseLevel` is a function parameter;
- the outcome of `http.NewRequest` is an optional error (`Outside.buildError`); its own checks on the method and the URI are not modelled;
- what the transport answers is a `Response` value.

Behaviour of the code that the model keeps, including where it fails:

- **Logger resolution can panic.** A context value under `ContextLogger` that is not a `Logger` makes the type assertion panic (log/logger.go:99). The model returns `Panic`.
- **Caller attribution can panic.** The code keeps the text from `index+4`, one character past the end of the first `pkg`. That slice is out of range when the `pkg` ends the string (log/logger.go:186, 191).
- **Statuses from 300 to 399 are accepted.** Only a code below 200 or from 400 up is an error (lib/http.go:66).
- **The body of a rejected response is never read or closed** (lib/http.go:66-68).
- **An empty variable name reads as unset.** `os.Getenv("")` is always "", so `${||d}` gives `d` (config/config.go:55-58).

## Model

| member | source | states |
|---|---|---|
| Config.FirstStop | config/config.go:45-54 | the scan's stop is the first index at or after `from` where the double bar starts or "}" stands, or the end when there is none |
| Config.Getenv | config/config.go:55 | `os.Getenv`: a set, non-empty name reads as its entry; an unset variable and the empty name read as "" |
| Config.FirstStopAt | config/config.go:45-54 | a stop with no stop before it is where the scan breaks |
| Config.ScanStopsInBounds | config/config.go:45-54 | in a `${...}` value the scan always stops before the end, and a double-bar stop leaves the default slice `[i+2, len-1]` in range |
| Config.ParsePlaceholder | config/config.go:35-41 | a value yields a placeholder exactly when it is at least 3 long, starts with "${" and ends with "}" |
| Config.ExpandValueEnv | config/config.go:31-60 | the loop's result equals the specification `Expansion`: the variable named up to the first stop if set and non-empty, else the default after the double bar, else "" |
| Config.ShortValueUnchanged | config/config.go:35-37 | a value shorter than 3 characters is returned unchanged |
| Config.UndelimitedValueUnchanged | config/config.go:39-41 | a value that does not start with "${" or does not end with "}" is returned unchanged |
| Config.ExpandWithDefault | config/config.go:46-58 | with the double bar first, the name is the text before it and the default the text after it up to the final "}"; a set, non-empty variable wins |
| Config.ExpandWithoutDefault | config/config.go:50-58 | with "}" first, the name is the text before it and the result is the variable, "" when unset, whatever follows |
| Config.BraceBeforeBarsExample | config/config.go:50-52 | `${A}` followed by a double bar and `b}` with A unset expands to "", not to "b" |
| Config.DefaultExample | config/config.go:55-58 | `${FOO` double bar `bar}` gives FOO's value when set and non-empty, else "bar" |
| Config.EmptyNameGivesDefault | config/config.go:46-58 | a double bar right after "${" names the empty variable, which `os.Getenv` reads as "", so the default is the result |
| Config.EmptyNameExample | config/config.go:55-58 | `${` double bar `d}` gives "d" even when the environment has an entry under the empty name |
| Config.RewrittenStep | config/config.go:22-28 | the write log grows by the key just visited exactly when its expansion differs |
| Config.RewrittenExactly | config/config.go:25-27 | a key is written back iff it is listed, has a value, and its expansion differs from that value |
| Config.ExpandedOn | config/config.go:22-28 | expanding the values of listed keys keeps the table's key set |
| Config.ExpandedOnStep | config/config.go:22-28 | visiting one more key of a duplicate-free key list replaces only that key's value, by its expansion |
| Config.LoopStep | config/config.go:23-27 | writing a key's expansion back exactly when it differs moves the table and the write log from the first n keys to the first n + 1 |
| Config.Section.constructor | config/config.go:17 | the section starts with distinct keys, a value for each key and nothing written |
| Config.Section.String | config/config.go:62-64 | a key's value, or "" for a key the section lacks |
| Config.Section.SetValue | config/config.go:26 | only that key's value changes; the key list is kept and the write is logged |
| Config.Section.RewriteKey | config/config.go:23-27 | one loop pass: the table is expanded on one more key and the log grows by that key when it changed |
| Config.Section.InitConfig | config/config.go:21-29 | afterwards every key holds its expansion, the key set is unchanged, and exactly the keys whose value changed were written, in order |
| Net.Canonicalize | lib/http.go:54 | canonicalisation of a header key keeps its length (the `net/http` header rules the client relies on) |
| Net.CanonicalizeKeepsTokens | lib/http.go:54 | canonicalising token characters gives token characters |
| Net.CanonicalizeFixes | lib/http.go:54 | a key already in canonical form is left as it is |
| Net.CanonicalizeIsCanonical | lib/http.go:54 | what canonicalisation produces is in canonical form: upper case at the start and after a hyphen, lower case elsewhere |
| Net.CanonicalKey | lib/http.go:54 | `CanonicalMIMEHeaderKey`: a token key becomes a canonical token key of the same length; any other key is kept as it is |
| Net.CanonicalizeIdempotent | lib/http.go:54 | canonicalising a token key a second time changes nothing |
| Net.CanonicalizeIgnoresCase | lib/http.go:54 | token keys that differ only in ASCII case canonicalise alike |
| Net.CanonicalKeyIdempotent | lib/http.go:54 | canonicalising a header key twice is the same as once |
| Net.CanonicalKeyIgnoresCase | lib/http.go:54 | two token keys that differ only in ASCII case address the same header |
| Net.Set | lib/http.go:54 | `Header.Set` stores exactly `[value]` under the canonical key, `Get` reads it back, and every other key is untouched |
| Net.Get | lib/http.go:58 | `Header.Get`: the first value stored under the canonical key, or "" when the key is missing or holds no value |
| Net.GetByCanonicalKey | lib/http.go:58 | reading by the canonical name reads the same slot as reading by the name itself |
| Net.SetAllLastWins | lib/http.go:53-55 | of several supplied keys with one canonical form, the one set last decides the value |
| Net.SetAllUntouched | lib/http.go:53-55 | a header no supplied key maps to keeps its presence and its values |
| Net.AddCookie | lib/http.go:58 | the Cookie slot ends up holding exactly one value: the prior first value, "; " and "name=value" when the header had a value, else "name=value" alone; no other header changes |
| Log.Lookup | log/logger.go:95 | a key bound nowhere in the context chain reads as nil |
| Log.LoggerFromContext | log/logger.go:91-100 | a nil context, or nil under `ContextLogger`, gives the global logger; a bound Logger is returned as it is; any other bound value panics, and only then |
| Log.LoggerFromRequest | log/logger.go:83-88 | a nil request gives the global logger; otherwise the result is the resolution of the request's context |
| Log.ResolveUnbound | log/logger.go:83-98 | with no binding in the chain, resolution from the context, or from any request carrying it, gives the global logger |
| Log.ResolveNilBinding | log/logger.go:95-98 | an explicit nil bound under `ContextLogger`, with other layers above it, resolves to the global logger |
| Log.ResolveInherited | log/logger.go:91-99 | layers binding other keys do not change what a context resolves to |
| Log.ResolveMostRecent | log/logger.go:91-99 | the logger most recently bound into a context or an ancestor is the one resolved |
| Log.WithField | log/logger.go:174-179 | the child is one frame deeper, its keys are the parent's plus the new key, the new value wins, and the other fields are kept |
| Log.WithFieldsSkip | log/logger.go:176 | n derivations add exactly n to the skip depth |
| Log.WithFieldsFields | log/logger.go:177 | after a chain of derivations, each key holds the last value the chain gave it, else the ancestor's value |
| Log.WithFieldsKeepsKeys | log/logger.go:177 | a derived logger's field set is a superset of its ancestor's |
| Log.IndexFrom | log/logger.go:184-189 | `strings.Index`: the first occurrence at or after `from`, or -1 when there is none |
| Log.TrimPkg | log/logger.go:184-192 | the truncation panics exactly when the first "pkg" is the string's last three characters |
| Log.TrimPkgAbsent | log/logger.go:185 | a string without "pkg" is kept whole |
| Log.TrimPkgAfterFirst | log/logger.go:184-191 | with the first "pkg" at i and text after it, the result is the suffix from i+4 |
| Log.CallerInfo | log/logger.go:182-194 | the frame `skip` levels up, with file and function each truncated at "pkg" and the line kept; it fails iff either truncation panics |
| Log.EntryWithCallInfo | log/logger.go:137-140 | the emission's fields are the logger's plus file, line and func of the caller frame, which override fields of the same name |
| Log.Emit | log/logger.go:142-172 | a leveled call hands logrus its level, format, arguments and the fields with call info; it fails iff caller info does |
| Log.LogState.constructor | log/logger.go:42-46 | at start the global logger has only the host field and skip 4 |
| Log.LogState.NewLogger | log/logger.go:49-80 | JSON iff log_format is exactly "json"; the parsed level, or debug; host from $HOSTNAME, else the process host; the global logger becomes the returned logger with exactly service and host at skip 4 |
| Lib.Outbound.constructor | lib/http.go:49 | the new request keeps the URI and body, turns an empty method into GET, and starts with no headers |
| Lib.ApplyHeaders | lib/http.go:53-55 | the header loop leaves the header equal to the pairs applied with `Header.Set` in iteration order |
| Lib.SuppliedHeaderSet | lib/http.go:53-55 | a supplied header that no other supplied key shares a canonical form with ends up holding exactly its value |
| Lib.CopyCookies | lib/http.go:57-59 | the cookie loop leaves the header equal to every inbound cookie added in order |
| Lib.CopiedCookieHeader | lib/http.go:57-59 | afterwards the Cookie header is the prior value and "; " (if any), then every cookie's "name=value" joined by "; " |
| Lib.CookieAfterAdd | lib/http.go:58 | after one AddCookie the Cookie value is the prior value and "; " when there was one, then "name=value" |
| Lib.JoinCookiesNonEmpty | lib/http.go:58 | a non-empty cookie list joins to a non-empty Cookie value |
| Lib.CopiedCookiesOnlyCookie | lib/http.go:57-59 | copying cookies changes no header but Cookie |
| Lib.TraceRequest | lib/http.go:83-94 | the outbound header becomes the fallback's correlation header or the injected carrier, as the precedence rule picks |
| Lib.ChooseTracePath | lib/http.go:87 | the fallback is chosen iff extraction failed and the context holds a string under the correlation key, and it carries that string |
| Lib.CorrelationIDTokens | lib/http.go:41 | the correlation header name is made only of token characters |
| Lib.CorrelationKeyCanonical | lib/http.go:88 | "X-B3-Traceid" is its own canonical form, so the header is stored under that exact name |
| Lib.TracePrecedence | lib/http.go:87-93 | the fallback runs iff extraction failed and the context holds a correlation string, which is then forwarded verbatim; otherwise only the carrier is written |
| Lib.InjectionKeepsCorrelation | lib/http.go:91-93 | under injection, a carrier that does not name the correlation header leaves it as it was |
| Lib.Accepted | lib/http.go:66 | a status is accepted exactly when it is neither 400 or above nor below 200 |
| Lib.DelayMs | lib/http.go:75 | the delay is the elapsed time in whole milliseconds, truncated toward zero for either sign |
| Lib.DelayWithin | lib/http.go:75 | a call lasting between lo and hi milliseconds reports a delay in [lo, hi] |
| Lib.CompletionLogger | lib/http.go:76-79 | the completion logger is three frames deeper and adds stat=downstream, url and delayms to the resolved logger's fields, keeping the rest |
| Lib.LogRequest | lib/http.go:74-81 | a resolution panic propagates; otherwise the record is the info emission of the completion logger with the method, URL and delay as arguments |
| Lib.CompletionRecord | lib/http.go:74-81 | the record exists iff the caller frame three levels below the resolved logger's depth truncates; it is at info level with exactly the logger's keys plus stat, url, delayms, file, line and func |
| Lib.HTTPRequest | lib/http.go:44-72 | a build error is returned as it is; otherwise the request is sent with the built header; a transport failure or a status outside [200, 400) gives no body and the formatted error; else the body and the read error; with an inbound request the completion record is emitted on every path |

## Left out

- Loading config.conf, the panic on a missing file, and the INI library's own `%(key)s` value transforms are not modelled. The section is a constructor argument.
- Go's string indexing and slicing in the core work on bytes. The model indexes `char`s. Every delimiter the code looks for ("${", "||", "}", "pkg") is ASCII, so the two agree on ASCII text.
- Log.TrimPkg: when the character right after the first "pkg" takes more than one byte, Go's `index+4` cuts inside that character (log/logger.go:186, 191). `TrimPkg` drops the whole character instead.
- Log.CallerFrame: `runtime.Caller` and `FuncForPC` are replaced by a stack given as input. A skip past the end of the stack gives empty values.
- The level methods of logrus: formatting, output, level filtering and the process exit after `Fatalf` are not modelled. `Emit` stops at the record handed to logrus.
- `SetOutput(os.Stderr)` and the timestamp layouts of the two formatters are not modelled.
- `log.ParseLevel` is a parameter. Its case-insensitive parsing is not modelled.
- Concurrent access to the global logger slot is not modelled; its writes are sequential method calls on `LogState`.
- Config.Section.String: the INI library's `Section.Key` creates a missing key with an empty value, so `String` of an unknown key (config/config.go:63) may add that key to the section. `String` is a pure lookup, and this side effect is not modelled.
- Field values are limited to the strings and integers the core passes. logrus `WithFields` refuses a function-typed value, leaving the key out and recording "can not add field"; the model cannot express that case.
- Only `logrusLogger` values can be bound into a context as a Logger. Other implementations of the interface are not modelled.
- Context keys are strings. Go compares keys of any type.
- The `http.Client` transport, its pooling and its timeouts are not modelled. What it answers is an input.
- Lib.HTTPRequest: the body of a rejected response is not drained. The code does not drain it either.
- The tracer's span-context encoding is not modelled. Extraction is a boolean, and injection writes a given sequence of header pairs, so the round trip of a carrier is not stated.
- Cookie name and value sanitisation in `AddCookie` is not modelled, nor is cookie parsing in `Cookies()`.
- Lib.DelayMs: the int64 nanosecond clock and its overflow are not modelled. The clock readings are unbounded integers.
- Lib.HTTPRequest: the deferred log line's panic is returned as a value (`completion`) next to the method's results. In Go, that panic would propagate after the return.
- The package-level logging helpers (`LogErrorf`, `LogInfof` and the others) are not modelled separately. Each is `Emit` on the global logger.
