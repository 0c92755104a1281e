/** The upload bitmap of a file: the server's Md::FileValue, the id string it prints, and the
    client's Md::File that parses it to know which blocks to send again. */
module UploadIds {
  import opened Basics

  const DIGEST_LEN: nat := 32

  // ---- The id string -------------------------------------------------------------------------

  predicate IsDigit(c: char) {
    '0' <= c <= '9'
  }

  /** std::to_string. */
  function Decimal(n: nat): (s: string)
    ensures s != "" && forall i | 0 <= i < |s| :: IsDigit(s[i])
    ensures (n < 10 ==> |s| == 1) && (n > 0 ==> s[0] != '0')
  {
    var digit := ['0' + (n % 10) as char];
    if n < 10 then digit else Decimal(n / 10) + digit
  }

  function Digits(s: string, acc: int): int {
    if s == "" || !IsDigit(s[0]) then acc else Digits(s[1..], acc * 10 + (s[0] - '0') as int)
  }

  predicate IsSpace(c: char) {
    c == ' ' || '\t' <= c <= '\r'
  }

  /** atoi. */
  function Atoi(s: string): int {
    if s == "" then 0
    else if IsSpace(s[0]) then Atoi(s[1..])
    else if s[0] == '-' then -Digits(s[1..], 0)
    else if s[0] == '+' then Digits(s[1..], 0)
    else Digits(s, 0)
  }

  lemma {:induction false} DigitsSnoc(s: string, c: char, acc: int)
    requires IsDigit(c) && forall i | 0 <= i < |s| :: IsDigit(s[i])
    ensures Digits(s + [c], acc) == 10 * Digits(s, acc) + (c - '0') as int
  {
    if s == "" {
      assert "" + [c] == [c] && [c][1..] == "";
    } else {
      assert (s + [c])[1..] == s[1..] + [c];
      DigitsSnoc(s[1..], c, acc * 10 + (s[0] - '0') as int);
    }
  }

  /** Digits count by powers of ten, the last one for itself; a minus sign negates. */
  lemma AtoiPlaces(s: string, c: char)
    requires IsDigit(c) && forall i | 0 <= i < |s| :: IsDigit(s[i])
    ensures Atoi("") == 0 && Atoi([c]) == (c - '0') as int
    ensures Atoi(s + [c]) == 10 * Atoi(s) + (c - '0') as int
    ensures Atoi(['-'] + s) == -Atoi(s)
  {
    assert "" + [c] == [c];
    DigitsSnoc("", c, 0);
    DigitsSnoc(s, c, 0);
    assert (['-'] + s)[1..] == s;
  }

  lemma {:induction false} DigitsOfDecimal(n: nat, rest: string)
    ensures Digits(Decimal(n) + rest, 0) == Digits(rest, n)
  {
    var digit := ['0' + (n % 10) as char];
    if n < 10 {
      assert Decimal(n) + rest == digit + rest && (digit + rest)[1..] == rest;
    } else {
      assert Decimal(n) + rest == Decimal(n / 10) + (digit + rest);
      DigitsOfDecimal(n / 10, digit + rest);
      assert (digit + rest)[1..] == rest;
    }
  }

  lemma AtoiOfDecimal(n: nat)
    ensures Atoi(Decimal(n)) == n
  {
    DigitsOfDecimal(n, "");
    assert Decimal(n) + "" == Decimal(n);
    assert IsDigit(Decimal(n)[0]);
  }

  /** The ids from `i` on that are set, each followed by a colon. */
  function Printed(bits: seq<bool>, i: nat): string
    requires i <= |bits|
    decreases |bits| - i
  {
    if i == |bits| then ""
    else
      var rest := Printed(bits, i + 1);
      if bits[i] then Decimal(i) + ":" + rest else rest
  }

  /** The fields of `s` that end in a colon; `field` is the part of the first one already read. */
  function Fields(s: string, field: string): seq<string> {
    if s == "" then []
    else if s[0] == ':' then [field] + Fields(s[1..], "")
    else Fields(s[1..], field + [s[0]])
  }

  lemma {:induction false} FirstField(word: string, rest: string, field: string)
    requires forall i | 0 <= i < |word| :: IsDigit(word[i])
    ensures Fields(word + ":" + rest, field) == [field + word] + Fields(rest, "")
  {
    var s := word + ":" + rest;
    if word == "" {
      assert s[1..] == rest && field + word == field;
    } else {
      assert s[1..] == word[1..] + ":" + rest;
      assert field + [word[0]] + word[1..] == field + word;
      FirstField(word[1..], rest, field + [word[0]]);
    }
  }

  /** For each block its id and a colon, or nothing. */
  function Words(bits: seq<bool>): seq<string> {
    seq(|bits|, i requires 0 <= i < |bits| => if bits[i] then Decimal(i) + ":" else "")
  }

  lemma {:induction false} PrintedIs(bits: seq<bool>, i: nat)
    requires i <= |bits|
    ensures Printed(bits, i) == Flatten(Words(bits)[i..])
    decreases |bits| - i
  {
    if i < |bits| {
      PrintedIs(bits, i + 1);
      assert Words(bits)[i..] == [Words(bits)[i]] + Words(bits)[i + 1..];
      assert Words(bits)[i..][1..] == Words(bits)[i + 1..];
      assert "" + Printed(bits, i + 1) == Printed(bits, i + 1);
    }
  }

  function Terminated(fields: seq<string>): seq<string> {
    seq(|fields|, k requires 0 <= k < |fields| => fields[k] + ":")
  }

  lemma FirstTerminated(field: string, rest: seq<string>, tail: string)
    ensures Flatten(Terminated([field] + rest)) + tail == field + ":" + (Flatten(Terminated(rest)) + tail)
  {
    assert Terminated([field] + rest)[1..] == Terminated(rest);
    Assoc(field + ":", Flatten(Terminated(rest)), tail);
  }

  lemma CharMoves(field: string, s: string)
    requires s != ""
    ensures field + s == field + [s[0]] + s[1..]
    ensures ':' !in field && s[0] != ':' ==> ':' !in field + [s[0]]
  {
  }

  /** A string is its fields, each with its colon, and a tail without one, which is not a field. */
  lemma {:induction false} FieldsAre(s: string, field: string) returns (tail: string)
    requires ':' !in field
    ensures var fields := Fields(s, field);
            && field + s == Flatten(Terminated(fields)) + tail && ':' !in tail
            && forall f | f in fields :: ':' !in f
    decreases |s|
  {
    if s == "" {
      tail := field;
      assert field + s == "" + tail;
    } else if s[0] == ':' {
      tail := FieldsAre(s[1..], "");
      assert "" + s[1..] == s[1..];
      FirstTerminated(field, Fields(s[1..], ""), tail);
      CharMoves(field, s);
    } else {
      tail := FieldsAre(s[1..], field + [s[0]]);
      CharMoves(field, s);
    }
  }

  /** The bits after setting the one each field names; None when a field names no element. */
  function MarkFields(bits: seq<bool>, fields: seq<string>): Option<seq<bool>>
    decreases |fields|
  {
    if fields == [] then Some(bits)
    else
      var id := Atoi(fields[0]);
      if 0 <= id < |bits| then MarkFields(bits[id := true], fields[1..]) else None
  }

  /** Every field must name a bit; then those bits are set, and no other changes. */
  lemma {:induction false} MarkFieldsDoes(bits: seq<bool>, fields: seq<string>)
    ensures var o := MarkFields(bits, fields);
            && (o.Some? <==> forall f | f in fields :: 0 <= Atoi(f) < |bits|)
            && (o.Some? ==> |o.value| == |bits| && forall i | 0 <= i < |bits| ::
                  o.value[i] <==> bits[i] || exists f :: f in fields && Atoi(f) == i)
    decreases |fields|
  {
    if fields != [] {
      var id := Atoi(fields[0]);
      var o, rest := MarkFields(bits, fields), fields[1..];
      assert fields[0] in fields && forall f | f in rest :: f in fields;
      if 0 <= id < |bits| {
        MarkFieldsDoes(bits[id := true], rest);
        if forall f | f in rest :: 0 <= Atoi(f) < |bits| {
          forall f | f in fields ensures 0 <= Atoi(f) < |bits| {
            assert f == fields[0] || f in rest;
          }
        }
        if o.Some? {
          forall i | 0 <= i < |bits|
            ensures o.value[i] <==> bits[i] || exists f :: f in fields && Atoi(f) == i
          {
            if f :| f in fields && Atoi(f) == i {
              assert f == fields[0] || f in rest;
            }
          }
        }
      }
    }
  }

  function BitOr(client: seq<bool>, server: seq<bool>, from: nat): seq<bool> {
    seq(|client|, i requires 0 <= i < |client| => client[i] || (from <= i < |server| && server[i]))
  }

  predicate Fits(server: seq<bool>, from: nat, n: nat) {
    forall i | from <= i < |server| :: server[i] ==> i < n
  }

  lemma ParseOne(client: seq<bool>, server: seq<bool>, i: nat)
    requires i < |server| && server[i]
    ensures MarkFields(client, Fields(Printed(server, i), "")) ==
            if i < |client| then MarkFields(client[i := true], Fields(Printed(server, i + 1), "")) else None
  {
    var rest := Printed(server, i + 1);
    assert Printed(server, i) == Decimal(i) + ":" + rest;
    FirstField(Decimal(i), rest, "");
    AtoiOfDecimal(i);
    var fields := [Decimal(i)] + Fields(rest, "");
    assert "" + Decimal(i) == Decimal(i) && fields[1..] == Fields(rest, "");
  }

  lemma {:induction false} ParsePrinted(client: seq<bool>, server: seq<bool>, i: nat)
    requires i <= |server|
    ensures MarkFields(client, Fields(Printed(server, i), "")) ==
            if Fits(server, i, |client|) then Some(BitOr(client, server, i)) else None
    decreases |server| - i
  {
    if i == |server| {
      assert BitOr(client, server, i) == client;
    } else if !server[i] {
      assert Printed(server, i) == Printed(server, i + 1);
      ParsePrinted(client, server, i + 1);
      assert BitOr(client, server, i) == BitOr(client, server, i + 1);
    } else {
      ParseOne(client, server, i);
      if i >= |client| {
        assert !Fits(server, i, |client|);
      } else {
        ParsePrinted(client[i := true], server, i + 1);
        assert BitOr(client, server, i) == BitOr(client[i := true], server, i + 1);
      }
    }
  }

  /** The string the server prints sets in the client's bitmap exactly the bits the server has
      set; it names an element the client does not have only if the server has that bit set. */
  lemma IdStringRoundTrip(client: seq<bool>, server: seq<bool>)
    ensures var parsed := MarkFields(client, Fields(Printed(server, 0), ""));
            if Fits(server, 0, |client|)
            then parsed.Some? && |parsed.value| == |client|
                 && forall i | 0 <= i < |client| :: parsed.value[i] <==> client[i] || (i < |server| && server[i])
            else parsed.None?
  {
    ParsePrinted(client, server, 0);
  }

  // ---- The bitmap ----------------------------------------------------------------------------

  predicate AllSet(bits: seq<bool>) {
    forall i | 0 <= i < |bits| :: bits[i]
  }

  function Unset(bits: seq<bool>, i: nat): (ids: seq<nat>)
    requires i <= |bits|
    ensures forall j | 0 <= j < |ids| :: i <= ids[j] < |bits| && !bits[ids[j]]
    ensures forall j, k | 0 <= j < k < |ids| :: ids[j] < ids[k]
    decreases |bits| - i
  {
    if i == |bits| then []
    else
      var rest := Unset(bits, i + 1);
      if bits[i] then rest else [i] + rest
  }

  lemma {:induction false} UnsetIsComplete(bits: seq<bool>, i: nat, id: nat)
    requires i <= id < |bits| && !bits[id]
    ensures id in Unset(bits, i)
    decreases |bits| - i
  {
    if i < id {
      UnsetIsComplete(bits, i + 1, id);
    }
  }

  class FileValue {
    const blockNum: nat
    var blockMd5: seq<Bytes>
    var uploadId: seq<bool>

    ghost predicate Valid()
      reads this
    {
      |blockMd5| == |uploadId| == blockNum
    }

    constructor (n: nat)
      ensures Valid() && blockNum == n
      ensures blockMd5 == seq(n, _ => []) && uploadId == seq(n, _ => false)
    {
      blockNum := n;
      blockMd5 := seq(n, _ => []);
      uploadId := seq(n, _ => false);
    }

    /** The digests are the consecutive 32-byte pieces of `md5`. */
    method SetBlockFileMD5(md5: Bytes)
      requires Valid() && |md5| >= DIGEST_LEN * blockNum
      modifies this`blockMd5
      ensures Valid()
      ensures Flatten(blockMd5) == md5[..DIGEST_LEN * blockNum]
      ensures forall i | 0 <= i < blockNum :: |blockMd5[i]| == DIGEST_LEN
    {
      var i := 0;
      while i < blockNum
        invariant i <= blockNum && Valid()
        invariant forall j | 0 <= j < i :: |blockMd5[j]| == DIGEST_LEN
        invariant Flatten(blockMd5[..i]) == md5[..DIGEST_LEN * i]
      {
        ghost var before := blockMd5;
        blockMd5 := blockMd5[i := md5[i * DIGEST_LEN..i * DIGEST_LEN + DIGEST_LEN]];
        FlattenSnoc(before[..i], blockMd5[i]);
        assert blockMd5[..i + 1] == before[..i] + [blockMd5[i]];
        i := i + 1;
      }
      assert blockMd5[..i] == blockMd5;
    }

    method SetUploadId(id: nat)
      requires Valid() && id < blockNum
      modifies this`uploadId
      ensures Valid() && uploadId == old(uploadId)[id := true]
    {
      uploadId := uploadId[id := true];
    }

    method GetUploadId() returns (idstr: string)
      requires Valid()
      ensures idstr == Printed(uploadId, 0) == Flatten(Words(uploadId))
    {
      PrintedIs(uploadId, 0);
      assert Words(uploadId)[0..] == Words(uploadId);
      idstr := "";
      var i := 0;
      while i < blockNum
        invariant i <= blockNum
        invariant idstr + Printed(uploadId, i) == Printed(uploadId, 0)
      {
        if uploadId[i] {
          ghost var rest := Printed(uploadId, i + 1);
          assert Printed(uploadId, i) == Decimal(i) + ":" + rest;
          assert idstr + (Decimal(i) + ":" + rest) == idstr + (Decimal(i) + ":") + rest;
          idstr := idstr + (Decimal(i) + ":");
        }
        i := i + 1;
      }
    }

    method LsFileFinish() returns (finished: bool)
      requires Valid()
      ensures finished <==> AllSet(uploadId)
    {
      var i := 0;
      while i < blockNum
        invariant i <= blockNum && forall j | 0 <= j < i :: uploadId[j]
      {
        if !uploadId[i] {
          return false;
        }
        i := i + 1;
      }
      return true;
    }

    /** The first block registered under `md5`. */
    method GetIdFromMD5(md5: Bytes) returns (id: int)
      requires Valid()
      ensures -1 <= id < blockNum && (id >= 0 ==> blockMd5[id] == md5)
      ensures forall j | 0 <= j < (if id >= 0 then id else blockNum) :: blockMd5[j] != md5
    {
      var i := 0;
      while i < blockNum
        invariant i <= blockNum && forall j | 0 <= j < i :: blockMd5[j] != md5
      {
        if blockMd5[i] == md5 {
          return i;
        }
        i := i + 1;
      }
      return -1;
    }
  }

  /** The client's view of the same file. */
  class ClientFile {
    var uploadId: seq<bool>

    constructor (n: nat)
      ensures uploadId == seq(n, _ => false)
    {
      uploadId := seq(n, _ => false);
    }

    /** `ok` is false where the source indexes its vector out of range. */
    method UpdateUploadId(idstr: string) returns (ok: bool)
      modifies this
      ensures ok <==> MarkFields(old(uploadId), Fields(idstr, "")).Some?
      ensures ok ==> Some(uploadId) == MarkFields(old(uploadId), Fields(idstr, ""))
      ensures ok <==> forall f | f in Fields(idstr, "") :: 0 <= Atoi(f) < |old(uploadId)|
      ensures ok ==> |uploadId| == |old(uploadId)| && forall i | 0 <= i < |uploadId| ::
                uploadId[i] <==> old(uploadId)[i] || exists f :: f in Fields(idstr, "") && Atoi(f) == i
    {
      MarkFieldsDoes(uploadId, Fields(idstr, ""));
      var start, i := 0, 0;
      while i < |idstr|
        invariant start <= i <= |idstr|
        invariant MarkFields(uploadId, Fields(idstr[i..], idstr[start..i])) ==
                  MarkFields(old(uploadId), Fields(idstr, ""))
      {
        var field := idstr[start..i];
        assert idstr[i..][1..] == idstr[i + 1..];
        if idstr[i] == ':' {
          ghost var later := Fields(idstr[i + 1..], "");
          assert Fields(idstr[i..], field) == [field] + later && ([field] + later)[1..] == later;
          var id := Atoi(field);
          if !(0 <= id < |uploadId|) {
            return false;
          }
          uploadId := uploadId[id := true];
          start := i + 1;
          assert idstr[start..i + 1] == "";
        } else {
          assert idstr[start..i + 1] == field + [idstr[i]];
        }
        i := i + 1;
      }
      return true;
    }

    /** The ids whose blocks are sent, in order. */
    method SendFileBlock() returns (ids: seq<nat>)
      ensures ids == Unset(uploadId, 0)
    {
      ids := [];
      var i := 0;
      while i < |uploadId|
        invariant i <= |uploadId| && ids + Unset(uploadId, i) == Unset(uploadId, 0)
      {
        if !uploadId[i] {
          ghost var rest := Unset(uploadId, i + 1);
          assert ids + ([i] + rest) == ids + [i] + rest;
          ids := ids + [i];
        }
        i := i + 1;
      }
    }
  }

  /** A client that asks again sends precisely the blocks the server is missing. */
  method Resume(server: FileValue, client: ClientFile) returns (ids: seq<nat>)
    requires server.Valid() && client.uploadId == seq(server.blockNum, _ => false)
    modifies client
    ensures client.uploadId == server.uploadId && ids == Unset(server.uploadId, 0)
  {
    var idstr := server.GetUploadId();
    IdStringRoundTrip(client.uploadId, server.uploadId);
    var ok := client.UpdateUploadId(idstr);
    assert client.uploadId == server.uploadId;
    ids := client.SendFileBlock();
  }
}
