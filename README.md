# brand-scraper, modelled in Dafny

brand-scraper is a batch script that fetches `https://<domain>/favicon.ico`
for every domain listed in `websites.txt`. Each icon that is fetched is stored
in one of two places. When the storage switch is on, it is uploaded to an S3
bucket under `public/favicons/<name>`. When the switch is off, it is written
to `os.path.join("local-test-icons-dir", <name>)`. That is
`local-test-icons-dir/<name>` unless the domain line begins with `/`: the
name is then absolute and the directory is dropped. The name is the part of
the domain before its first dot, followed by `-icon.ico`.

This project models the deterministic part of that script and proves
properties of it:

- `text.dfy` (module `Text`): Python's `str.isspace` as an explicit table of
  characters, and `str.strip()` as two scans, one from each end.
- `domains.dfy` (module `Domains`): `read_domains`. The lines of the file
  become the domain list: each line is stripped and blank lines are dropped.
- `naming.dfy` (module `Naming`): the file name `domain.split('.')[0] +
  "-icon.ico"`, the S3 key `public/favicons/<name>`, and `os.path.join` as
  POSIX `posixpath.join` does it for two arguments.
- `scraper.dfy` (module `Scraper`): the `main` loop. Fetch outcomes are an
  input, one per domain: `None` for a failed request, or the response bytes.
  The two sinks are observed through a log of storage actions
  `Action(sink, name, body)`. `Dispatch` is the specification of that log,
  and `Run` is the loop, written with the two separate `if` tests of the
  source. `Run` is proved to produce exactly `Dispatch`'s log.

`IsSpace`, `SaveLocally` and `Stored` have no contracts of their own; the
rows below name the lemmas that state their properties. `Stored` replays
a log of actions over what the two sinks held before the run (the bucket
and the local directory may already hold icons), one body per sink and
name: a store replaces what was under its name, and nothing is removed.

## Model

| member | source | states |
|---|---|---|
| Text.ListedIsMembership | brand-scraper.py:15 | The whitespace table lookup is exactly membership in the table of characters `str.isspace` accepts. |
| Text.IsSpace | brand-scraper.py:15 | No contract; `Text.ListedIsMembership` states that it is membership in the whitespace set of `str.strip`. |
| Text.LeadingSpace | brand-scraper.py:15 | The left scan of `strip` stops at the first non-space character: everything before it is whitespace, and it is the end or a non-space. |
| Text.TrailingCut | brand-scraper.py:15 | The right scan of `strip` stops just past the last non-space character: everything after it is whitespace. |
| Text.Strip | brand-scraper.py:15 | `line.strip()` is no longer than the line and has no whitespace at either end. |
| Text.StripIsSlice | brand-scraper.py:15 | `line.strip()` is the contiguous slice of the line that starts at its first non-space character, and only whitespace follows it. |
| Text.StripEmptyIffAllSpace | brand-scraper.py:15 | A line strips to the empty string (the comprehension's `if line.strip()` is false) exactly when every character is whitespace. |
| Text.StripUnique | brand-scraper.py:15 | Any trimmed slice with only whitespace around it is the stripped line, so `Strip` is pinned down by its characterisation. |
| Text.StripIdempotent | brand-scraper.py:15 | Stripping an already stripped string changes nothing. |
| Domains.ReadDomains | brand-scraper.py:12-15 | `read_domains` never returns more domains than there are lines. |
| Domains.ReadDomainsClean | brand-scraper.py:15 | Every returned domain is non-empty and has no leading or trailing whitespace. |
| Domains.ReadDomainsAppend | brand-scraper.py:15 | The comprehension works line by line in file order: the domains of two runs of lines are the two domain lists, concatenated. |
| Domains.ReadDomainsMembership | brand-scraper.py:15 | A string is a returned domain exactly when it is the non-empty stripped form of some line. |
| Domains.NonBlankFrom | brand-scraper.py:15 | The positions of the non-blank lines are in range and strictly increasing. |
| Domains.NonBlankFromComplete | brand-scraper.py:15 | Those positions include every non-blank line and no blank one. |
| Domains.ReadDomainsCount | brand-scraper.py:12-15 | There are exactly as many domains as non-blank lines (from position 0, for the whole file). |
| Domains.ReadDomainsAt | brand-scraper.py:12-15 | The k-th domain is the stripped form of the k-th non-blank line, so order is kept and no line is duplicated or merged. |
| Naming.FirstLabel | brand-scraper.py:81 | `domain.split('.')[0]` is a prefix of the domain with no dot, ending at the first dot or at the end of the domain. |
| Naming.FirstLabelUnique | brand-scraper.py:81 | Those three facts determine the first label: any prefix that has them is `FirstLabel`. |
| Naming.FileName | brand-scraper.py:81 | The file name ends in `-icon.ico`, and what precedes the suffix is the domain's dot-free prefix up to its first dot. |
| Naming.FileNameExample | brand-scraper.py:81 | `example.com` gets the file name `example-icon.ico`. |
| Naming.FileNameCollision | brand-scraper.py:81 | Two domains get the same file name exactly when their first labels are equal. |
| Naming.ObjectKeyCollision | brand-scraper.py:49 | Two domains are uploaded under the same key `public/favicons/<name>` exactly when their first labels are equal, so the later upload replaces the earlier one without an error. |
| Naming.ObjectKey | brand-scraper.py:49 | The key `public/favicons/<file name>` starts with the icon folder, and the file name is what follows it. |
| Naming.JoinPath | brand-scraper.py:82 | `os.path.join(directory, name)` always ends with the name, and is the name itself when the name is absolute. Otherwise it starts with the directory; exactly one `/` is inserted when the directory is non-empty and does not already end with one, and none otherwise. |
| Naming.LocalJoinInjective | brand-scraper.py:82 | Joining onto the local directory keeps distinct non-empty names distinct. |
| Naming.LocalPathCollision | brand-scraper.py:56-58 | Two domains get the same local path string exactly when their first labels are equal. |
| Naming.LocalPathInDirectory | brand-scraper.py:65-82 | A domain that does not start with `/` is written to `local-test-icons-dir/<file name>`. |
| Naming.LocalPathAbsolute | brand-scraper.py:81-82 | A domain that begins with `/` gives an absolute file name, and the icon's path is that absolute name itself, not under the relative `local-test-icons-dir/` prefix. |
| Naming.SharedFirstLabelExample | brand-scraper.py:81 | `foo.com` and `foo.org` both map to `foo-icon.ico`. |
| Scraper.UploadToS3 | brand-scraper.py:40-52 | The upload goes to the given bucket with the body unchanged, under a key that is the icon folder followed by the file name. |
| Scraper.SaveLocally | brand-scraper.py:55-58 | No contract; `Scraper.OutcomeOfOneDomain` states when it is used, with which path and body. |
| Scraper.Store | brand-scraper.py:84-92 | The body is stored unchanged, at the bucket when the switch is on and locally when it is off. The name is the icon folder followed by the file name for an upload, and a path ending with the file name for a local write. |
| Scraper.Outcome | brand-scraper.py:77-92 | A domain contributes one action when its fetch returned a body and none when it failed, and the action carries that body. |
| Scraper.Dispatch | brand-scraper.py:71-92 | The log never has more actions than there are domains. `DispatchCount` and `DispatchAt` give its exact length and contents. |
| Scraper.Run | brand-scraper.py:60-92 | `main` reads the domains and then, for each domain in order, applies the `if file_obj:` test and the two switch tests. The log it produces is exactly `Dispatch` of the domains and their fetch outcomes. |
| Scraper.DispatchAppend | brand-scraper.py:71 | Domains are handled one after another and independently: the log for two runs of domains is the two logs, concatenated. |
| Scraper.FailedFetchSkipped | brand-scraper.py:35-37 | A domain whose fetch fails adds nothing to the log, and the run continues with the next domain. |
| Scraper.OutcomeOfOneDomain | brand-scraper.py:79-92 | A failed fetch yields no action. A successful fetch yields exactly one: `upload_to_s3` with the file name when the switch is on, or `save_locally` with the joined path when it is off. The body is passed unchanged, even when it is empty. |
| Scraper.SucceededFrom | brand-scraper.py:79 | The positions of the successful fetches are in range and strictly increasing. |
| Scraper.SucceededFromComplete | brand-scraper.py:79 | Those positions include every successful fetch and no failed one. |
| Scraper.DispatchCount | brand-scraper.py:79-92 | There are exactly as many storage actions as successful fetches. |
| Scraper.DispatchAt | brand-scraper.py:77-92 | The k-th action belongs to the k-th domain whose fetch succeeded. It stores exactly that response body, under that domain's key or path, at the sink the switch selects. |
| Scraper.DispatchSinks | brand-scraper.py:84-92 | Every action goes to the configured bucket when the switch is on, and every action goes to a local file when it is off. Which sink is used never depends on the domain. |
| Scraper.SlotCollision | brand-scraper.py:81-92 | Two domains are stored at the same sink and name exactly when their first labels are equal, with either setting of the switch. |
| Scraper.Stored | brand-scraper.py:40-58 | No contract; `Scraper.StoredPlaces`, `Scraper.StoredUntouched` and `Scraper.StoredLast` state what the sinks hold after the run, starting from what they held before. |
| Scraper.StoredPlaces | brand-scraper.py:40-58 | After a log of actions, a sink holds something under a name exactly when it did before or some action stored under that name there: the run clears nothing. |
| Scraper.StoredUntouched | brand-scraper.py:40-58 | A place no action stores into keeps the body it held before the run. |
| Scraper.StoredLast | brand-scraper.py:40-58 | Last write wins: the place of an action holds its body when no later action stores into the same place. |
| Scraper.LastWriteWins | brand-scraper.py:71-92 | After a whole run, the place a domain's icon went to holds that domain's body when no later successfully fetched domain has the same first label. |
| Scraper.SharedNameOverwrites | brand-scraper.py:49-52 | When `foo.com` and `foo.org` are both fetched in S3 mode, the object under `public/favicons/foo-icon.ico` holds the later body, and every other object of the bucket is as it was. |

## Left out

- The HTTP GET in `download_and_convert_ico`, including `raise_for_status` and the `requests` exceptions, is network I/O. Its result is an input instead: `None` for any failure, or the body bytes. The URL it would request is not modelled.
- The boto3 client, the credentials read from the environment and `upload_fileobj` are calls into a foreign SDK. Only the bucket, the key and the bytes of the upload are logged. The bucket is a `string` in `Config`, so a missing `AWS_STORAGE_BUCKET_NAME` (a `None` bucket) and any upload failure are not modelled.
- File `open`/`write`, `os.path.exists`/`os.makedirs` and `load_dotenv` are filesystem and environment plumbing. Opening and reading `websites.txt` is left out too: `ReadDomains` takes the file's lines as they are, and text decoding and newline translation are not modelled.
- Any exception a sink raises would abort the run. This is not modelled: every requested store appears in the log.
- `print` output is console only.
- The commented-out PNG conversion is dead code.
- `S3_SWITCH` is a constant in `main`. Here it is the `s3Switch` field of `Config`, so both settings are covered. The local directory stays the constant `local-test-icons-dir`.
- Local paths are compared as strings. POSIX treats some different strings as one file, such as `a/x-icon.ico` and `a//x-icon.ico`, and that normalisation is not modelled. So `LocalPathCollision`, `LocalPathInDirectory`, `LocalPathAbsolute` and `LastWriteWins` speak of path strings, not of files: which file a path names also depends on the working directory, which is not modelled.
