/**
 * The door server (auth.php): one JSON request per call, answered from the
 * tag database rfid.txt (a map from tag UID to a record of named values)
 * and, for PIN-only logins, googleauth.txt.
 *
 * A tag is trusted through a rotating anti-tamper text: the server derives
 * it from the owner's name and a number with HMAC-SHA256, the reader writes
 * it into a secret block of the tag, and each visit checks the text on the
 * tag (stage 2), has a fresh one written and checks that (stage 3), then
 * optionally asks for a TOTP code or PIN (stage 4).
 *
 * HMAC-SHA256, HMAC-SHA1, rand(), date() and the files are parameters or
 * fields: the HMACs are functions, rand() reads a stream of raw draws, the
 * date and the current TOTP step are arguments, the database is a field,
 * and the log files and the door and alarm hooks are sequences appended to.
 */
module AuthServer {
  import opened Wrappers
  import opened PhpValues
  import opened GAuth

  /** One tag's entry: field name to stored value. */
  type Record = map<string, Value>

  /** hash_hmac('sha256', message, $hmac_hash_key) in lower-case hex: 64 characters. */
  type Sha256Hex = f: string -> string | forall m :: |f(m)| == 64
    witness (m: string) => seq(64, _ => '0')

  /** getrandmax() */
  const RandMax: nat := 0x7FFF_FFFF

  /** The characters of the card filler. */
  const Charset: string := "0123456789abcdef"

  /** The second-factor fields resetfob keeps. */
  const SecondFactors: set<string> := {"gauth_pin", "gauth_secret", "nfc_pin"}

  /**
   * The posted fields; None for a field the JSON body does not carry. The
   * tag text and the door command may be strings or booleans.
   */
  datatype Request = Request(uid: Option<string>, cmd: Option<string>, deviceId: Option<string>,
                             key: Option<Posted>, doorcmd: Option<Posted>, gcode: Option<string>)

  /** What a request prints: a JSON object, plain text, nothing, or an uncaught error. */
  datatype Reply = Json(fields: map<string, Value>) | Plain(text: string) | NoOutput | Crash(message: string)

  /** The external hooks of configuration.php, in call order. */
  datatype Event =
    | DoorOpen(device: string, uid: string)
    | DoorClose(device: string, uid: string)
    | DoorToggle(device: string, uid: string)
    | CloneAlarm(device: string, uid: string, name: Value)
    | UnknownAlarm(device: string, uid: string)

  /** A missing post field used as a string: PHP's null, which equals "". */
  function Text(o: Option<string>): (s: string)
    ensures o.None? ==> s == ""
    ensures o.Some? ==> s == o.value
  {
    if o.None? then "" else o.value
  }

  /** A missing posted value used in a comparison: PHP's null, which compares like "". */
  function Field(o: Option<Posted>): (p: Posted)
    ensures o.None? ==> p == PostedText("")
    ensures o.Some? ==> p == o.value
  {
    if o.None? then PostedText("") else o.value
  }

  /** `$x != ""` on a posted value. */
  predicate Filled(o: Option<Posted>)
  {
    !LooseEqPosted("", Field(o))
  }

  /** A posted value passes `!= ""` exactly when it is a non-empty string or true. */
  lemma FilledCases(o: Option<Posted>)
    ensures Filled(o) <==> o == Some(PostedBool(true)) || (o.Some? && o.value.PostedText? && o.value.s != "")
  {
    LooseEqPostedWord("", Field(o));
  }

  /** json_encode(array("status" => s)) */
  function Status(s: string): Reply
  {
    Json(map["status" := Str(s)])
  }

  /** $rec[$field]: the stored value, null when the field is missing. */
  function Get(rec: Record, field: string): (v: Value)
    ensures field in rec ==> v == rec[field]
    ensures field !in rec ==> v == Null
  {
    if field in rec then rec[field] else Null
  }

  /** A stored value used in a string concatenation. */
  function ValueText(v: Value): string
  {
    match v
    case Null => ""
    case Int(i) => IntText(i)
    case Str(s) => s
    case List(_) => "Array"
  }

  /** rand(lo, hi) from a raw draw. */
  function RandIn(raw: nat, lo: int, hi: int): (n: int)
    requires lo <= hi
    ensures lo <= n <= hi
  {
    lo + raw % (hi - lo + 1)
  }

  /** The value call number k of rand(lo, hi) returns, from the raw draws rng. */
  function RandAt(rng: nat -> nat, k: nat, lo: int, hi: int): (n: int)
    requires lo <= hi
    ensures lo <= n <= hi
  {
    RandIn(rng(k), lo, hi)
  }

  /* ---------------- tag texts ---------------- */

  /** generate_antitamper_txt(name, num): 16 hex characters from offset 8 of the HMAC. */
  function AntitamperText(mac: Sha256Hex, name: string, num: Value): (t: string)
    ensures |t| == 16 && t == mac(name + ValueText(num))[8..24]
  {
    Substr(mac(name + ValueText(num)), 8, 16)
  }

  /** generate_keys_txt(name, num): 12 hex characters, a 6-byte MIFARE key. */
  function KeysText(mac: Sha256Hex, name: string, num: int): (t: string)
    ensures |t| == 12 && t == mac(name + IntText(num))[8..20]
  {
    Substr(mac(name + IntText(num)), 8, 12)
  }

  /** check_antitamper_txt as written: PHP's loose == between the expected and the posted text. */
  predicate CheckAntitamperLoose(mac: Sha256Hex, name: string, num: Value, txt: Posted)
  {
    LooseEqPosted(AntitamperText(mac, name, num), txt)
  }

  /** check_antitamper_txt as intended: the tag must present exactly the text issued for the number. */
  predicate CheckAntitamper(mac: Sha256Hex, name: string, num: Value, txt: Posted)
  {
    txt == PostedText(AntitamperText(mac, name, num))
  }

  /**
   * A "magic hash": when the expected text is "0e" followed by digits, PHP's
   * == reads it as the number 0, so a tag presenting "0" passes the check as
   * written, and the intended check refuses it.
   */
  lemma MagicHashAccepted(mac: Sha256Hex, name: string, num: Value, digits: string)
    requires AllDigits(digits) && digits != []
    ensures AntitamperText(mac, name, num) == "0e" + digits ==>
      CheckAntitamperLoose(mac, name, num, PostedText("0")) && !CheckAntitamper(mac, name, num, PostedText("0"))
  {
    var t := "0e" + digits;
    assert t[0] == '0' && t[1] == 'e';
    assert FindExponent(t, 1) == Some(1);
    assert FindExponent(t, 0) == Some(1);
    assert t[..1] == "0" && t[2..] == digits;
    assert !AllDigits(t) by {
      assert !IsDigit(t[1]);
    }
    assert DigitsValue("0") == 0 by {
      assert "0"[..0] == "";
    }
    assert NumericValue(t) == Some(0 * Pow10(DigitsValue(digits)));
    assert NumericValue("0") == Some(0);
  }

  /**
   * The intended check only ever refuses more: whatever it accepts, the
   * check as written accepts, and it accepts only the 16-character text
   * itself, never a boolean.
   */
  lemma StrictCheckRefinesLoose(mac: Sha256Hex, name: string, num: Value, txt: Posted)
    ensures CheckAntitamper(mac, name, num, txt) ==> CheckAntitamperLoose(mac, name, num, txt)
    ensures CheckAntitamper(mac, name, num, txt) ==> txt.PostedText? && |txt.s| == 16
  {
    if CheckAntitamper(mac, name, num, txt) {
      LooseEqReflexive(txt.s);
    }
  }

  /**
   * A posted true passes the check as written for every record, since the
   * expected text has 16 characters and so reads as true; the intended
   * check refuses it.
   */
  lemma BoolKeyPassesCheck(mac: Sha256Hex, name: string, num: Value)
    ensures CheckAntitamperLoose(mac, name, num, PostedBool(true))
    ensures !CheckAntitamper(mac, name, num, PostedBool(true))
  {
    var t := AntitamperText(mac, name, num);
    assert |t| == 16;
    assert t != "" && t != "0";
  }

  /* ---------------- request routing ---------------- */

  /** The request is turned away with die(): no cmd, no device_id, or no uid for anything but keyauth. */
  predicate Rejected(req: Request)
  {
    (req.uid.None? && Text(req.cmd) != "keyauth") || Text(req.cmd) == "" || Text(req.deviceId) == ""
  }

  /** The branch of auth.php a request takes. */
  datatype Branch = Reject | ChinaUidBranch | KeyAuthBranch | Stage1Branch | Stage2Branch | Stage3Branch | Stage4Branch | NoBranch

  function Route(req: Request): (b: Branch)
    ensures b == Reject <==> Rejected(req)
    ensures req.cmd == Some("keyauth") && Text(req.deviceId) != "" ==> b == KeyAuthBranch
    ensures b == ChinaUidBranch ==> Text(req.uid) != ""
    ensures b in {Stage1Branch, Stage2Branch, Stage3Branch, Stage4Branch} ==> Text(req.uid) != ""
    ensures b == Stage2Branch ==> Filled(req.key)
    ensures b == Stage3Branch ==> Filled(req.key) && Filled(req.doorcmd)
    ensures b == Stage4Branch ==> Filled(req.key) && Filled(req.doorcmd) && Text(req.gcode) != ""
  {
    var uid, cmd := Text(req.uid), Text(req.cmd);
    if Rejected(req) then Reject
    else if cmd == "chinauid" && uid != "" then ChinaUidBranch
    else if cmd == "keyauth" then KeyAuthBranch
    else if cmd == "stage1" && uid != "" then Stage1Branch
    else if cmd == "stage2" && uid != "" && Filled(req.key) then Stage2Branch
    else if cmd == "stage3" && uid != "" && Filled(req.key) && Filled(req.doorcmd) then Stage3Branch
    else if cmd == "stage4" && uid != "" && Filled(req.key) && Filled(req.doorcmd) && Text(req.gcode) != "" then Stage4Branch
    else NoBranch
  }

  /** A stage-3 request with key true and doorcmd "open" for a non-empty UID takes the stage-3 branch. */
  lemma BoolKeyRoutesToStage3(req: Request)
    requires req.cmd == Some("stage3") && req.uid.Some? && req.uid.value != "" && Text(req.deviceId) != ""
    requires req.key == Some(PostedBool(true)) && req.doorcmd == Some(PostedText("open"))
    ensures Route(req) == Stage3Branch
  {
    FilledCases(req.key);
    FilledCases(req.doorcmd);
  }

  /** in_array(needle, items): loose comparison against each entry. */
  function InArray(needle: string, items: seq<string>): (b: bool)
    ensures b <==> exists i :: 0 <= i < |items| && LooseEq(needle, items[i])
  {
    if items == [] then false
    else InArray(needle, items[..|items| - 1]) || LooseEq(needle, items[|items| - 1])
  }

  /**
   * Stage 1's device test: a record without a device list, or whose list
   * holds "all" or the requesting device; None when the stored list is not
   * an array, where in_array raises a TypeError.
   */
  function DeviceAllowed(rec: Record, device: string): (a: Option<bool>)
    ensures a.None? <==> "device_ids" in rec && !rec["device_ids"].List?
    ensures a == Some(true) <==>
      "device_ids" !in rec ||
      (rec["device_ids"].List? &&
       exists i :: 0 <= i < |rec["device_ids"].items| &&
         (LooseEq("all", rec["device_ids"].items[i]) || LooseEq(device, rec["device_ids"].items[i])))
  {
    if "device_ids" !in rec then Some(true)
    else match rec["device_ids"]
      case List(ids) => Some(InArray("all", ids) || InArray(device, ids))
      case _ => None
  }

  /** What stage 1 does with a UID. */
  datatype Stage1Action = LogUnknown | Reset | SendReadKey | RefuseDevice | DeviceListBroken | Init | Silent

  function Stage1Route(keys: map<string, Record>, uid: string, device: string): (a: Stage1Action)
    ensures a == LogUnknown <==> uid !in keys
    ensures a == Reset <==> uid in keys && "reset" in keys[uid]
    ensures a == SendReadKey <==>
      uid in keys && "reset" !in keys[uid] && "anti_tamper_block_readkey" in keys[uid] && DeviceAllowed(keys[uid], device) == Some(true)
    ensures a == Init <==>
      uid in keys && "reset" !in keys[uid] && "anti_tamper_block_readkey" !in keys[uid] && "key_name" in keys[uid]
  {
    if uid !in keys then LogUnknown
    else
      var rec := keys[uid];
      if "reset" in rec then Reset
      else if "anti_tamper_block_readkey" in rec then
        match DeviceAllowed(rec, device)
        case None => DeviceListBroken
        case Some(ok) => if ok then SendReadKey else RefuseDevice
      else if "key_name" in rec then Init
      else Silent
  }

  /* ---------------- record updates ---------------- */

  /** Stage 2, the tag matched anti_tamper_num: a fresh number goes to anti_tamper_num_temp, anti_tamper_num stays. */
  function RotateFresh(rec: Record, newNum: int, date: string): Record
  {
    rec["anti_tamper_num_temp" := Int(newNum)]["anti_tamper_temp_lastset" := Str(date)]
  }

  /** RotateFresh keeps the current number, the name and the count, and touches no other field. */
  lemma RotateFreshFields(rec: Record, newNum: int, date: string)
    ensures var r := RotateFresh(rec, newNum, date);
      && Get(r, "anti_tamper_num") == Get(rec, "anti_tamper_num")
      && Get(r, "key_name") == Get(rec, "key_name") && Get(r, "used_cnt") == Get(rec, "used_cnt")
      && Get(r, "anti_tamper_num_temp") == Int(newNum) && Get(r, "anti_tamper_temp_lastset") == Str(date)
      && r.Keys == rec.Keys + {"anti_tamper_num_temp", "anti_tamper_temp_lastset"}
      && forall f :: f in rec && f !in {"anti_tamper_num_temp", "anti_tamper_temp_lastset"} ==> r[f] == rec[f]
  {
  }

  /**
   * Stage 2, the tag matched anti_tamper_num_temp (the tag took the new
   * text but stage 3 never confirmed it): the pending number becomes the
   * current one and a fresh number is pending.
   */
  function RotateRace(rec: Record, newNum: int, date: string): Record
  {
    rec["anti_tamper_num" := Get(rec, "anti_tamper_num_temp")]["anti_tamper_num_temp" := Int(newNum)]["anti_tamper_temp_lastset" := Str(date)]
  }

  /** RotateRace promotes the pending number, keeps the name, and touches no other field. */
  lemma RotateRaceFields(rec: Record, newNum: int, date: string)
    ensures var r := RotateRace(rec, newNum, date);
      && Get(r, "anti_tamper_num") == Get(rec, "anti_tamper_num_temp")
      && Get(r, "key_name") == Get(rec, "key_name")
      && Get(r, "anti_tamper_num_temp") == Int(newNum) && Get(r, "anti_tamper_temp_lastset") == Str(date)
      && r.Keys == rec.Keys + {"anti_tamper_num", "anti_tamper_num_temp", "anti_tamper_temp_lastset"}
      && forall f :: f in rec && f !in {"anti_tamper_num", "anti_tamper_num_temp", "anti_tamper_temp_lastset"} ==> r[f] == rec[f]
  {
  }

  /** `$count += 1` on a stored counter: null counts as 0; None where PHP raises a TypeError. */
  function Increment(v: Value): (r: Option<Value>)
    ensures v.Int? ==> r == Some(Int(v.i + 1))
    ensures v.Null? ==> r == Some(Int(1))
    ensures v.List? ==> r.None?
    ensures v.Str? && NumericValue(v.s).Some? ==> r == Some(Int(NumericValue(v.s).value + 1))
    ensures v.Str? && NumericValue(v.s).None? ==> r.None?
  {
    match v
    case Null => Some(Int(1))
    case Int(i) => Some(Int(i + 1))
    case Str(s) => if NumericValue(s).Some? then Some(Int(NumericValue(s).value + 1)) else None
    case List(_) => None
  }

  /** Stage 3's commit: the pending number becomes current, the use is dated and counted; None when the count cannot be incremented. */
  function Commit(rec: Record, date: string): Option<Record>
  {
    match Increment(Get(rec, "used_cnt"))
    case None => None
    case Some(n) => Some(rec["anti_tamper_num" := Get(rec, "anti_tamper_num_temp")]["last_use" := Str(date)]["used_cnt" := n])
  }

  /**
   * Commit fails exactly when used_cnt cannot be counted; otherwise it
   * promotes the pending number, dates and counts the use, and touches no
   * other field.
   */
  lemma CommitFields(rec: Record, date: string)
    ensures Commit(rec, date).None? <==> Increment(Get(rec, "used_cnt")).None?
    ensures Commit(rec, date).Some? ==>
      var r := Commit(rec, date).value;
      && Get(r, "anti_tamper_num") == Get(rec, "anti_tamper_num_temp")
      && Get(r, "last_use") == Str(date)
      && Get(r, "key_name") == Get(rec, "key_name")
      && Some(Get(r, "used_cnt")) == Increment(Get(rec, "used_cnt"))
      && r.Keys == rec.Keys + {"anti_tamper_num", "last_use", "used_cnt"}
      && forall f :: f in rec && f !in {"anti_tamper_num", "last_use", "used_cnt"} ==> r[f] == rec[f]
  {
  }

  /** How many code digits stage 3 asks the reader for; None when the door opens at once. */
  function CodeDigits(rec: Record): (n: Option<int>)
    ensures n == Some(10) <==> "gauth_secret" in rec && "gauth_pin" in rec
    ensures n == Some(6) <==> "gauth_secret" in rec && "gauth_pin" !in rec
    ensures n == Some(4) <==> "gauth_secret" !in rec && "nfc_pin" in rec
    ensures n.None? <==> "gauth_secret" !in rec && "nfc_pin" !in rec
  {
    if "gauth_secret" in rec then (if "gauth_pin" in rec then Some(10) else Some(6))
    else if "nfc_pin" in rec then Some(4)
    else None
  }

  /** The record resetfob leaves: the name and the second factors, nothing else. */
  function ResetRecord(rec: Record): Record
  {
    map f | f in {"key_name"} + (rec.Keys * SecondFactors) :: if f == "key_name" then Get(rec, "key_name") else rec[f]
  }

  /** The second factors a record has, copied aside before it is rebuilt. */
  method SaveFactors(rec: Record) returns (saved: Record)
    ensures saved == map f | f in rec.Keys * SecondFactors :: rec[f]
  {
    saved := map[];
    if "gauth_pin" in rec {
      saved := saved["gauth_pin" := rec["gauth_pin"]];
    }
    if "gauth_secret" in rec {
      saved := saved["gauth_secret" := rec["gauth_secret"]];
    }
    if "nfc_pin" in rec {
      saved := saved["nfc_pin" := rec["nfc_pin"]];
    }
    assert saved.Keys == rec.Keys * SecondFactors;
  }

  /** A record holding only the name and the saved second factors. */
  method Rebuild(name: Value, saved: Record) returns (rebuilt: Record)
    requires saved.Keys <= SecondFactors
    ensures rebuilt == saved["key_name" := name]
  {
    rebuilt := map["key_name" := name];
    if "gauth_pin" in saved {
      rebuilt := rebuilt["gauth_pin" := saved["gauth_pin"]];
    }
    if "gauth_secret" in saved {
      rebuilt := rebuilt["gauth_secret" := saved["gauth_secret"]];
    }
    if "nfc_pin" in saved {
      rebuilt := rebuilt["nfc_pin" := saved["nfc_pin"]];
    }
    assert rebuilt.Keys == saved["key_name" := name].Keys;
  }

  /** ResetRecord keeps the name and the second factors that were set, and nothing else. */
  lemma ResetRecordFields(rec: Record)
    ensures var r := ResetRecord(rec);
      && r.Keys == {"key_name"} + (rec.Keys * SecondFactors)
      && Get(r, "key_name") == Get(rec, "key_name")
      && forall f :: f in SecondFactors && f in rec ==> r[f] == rec[f]
  {
  }

  /** A reset tag is initialised on its next stage 1, wherever it is presented. */
  lemma ResetLeadsToInit(keys: map<string, Record>, uid: string, device: string)
    requires uid in keys
    ensures Stage1Route(keys[uid := ResetRecord(keys[uid])], uid, device) == Init
  {
    var r := ResetRecord(keys[uid]);
    ResetRecordFields(keys[uid]);
    assert "reset" !in r && "anti_tamper_block_readkey" !in r && "key_name" in r;
  }

  /* ---------------- tag initialisation ---------------- */

  /** get_rand_block_to_write from draws d and d + 1: block b of sector s, 4s + b with s in 1..15 and b in 0..2. */
  function BlockFor(rng: nat -> nat, d: nat): (block: int)
    ensures 4 <= block < 64
    ensures block % 4 != 3
    ensures 1 <= block / 4 <= 15
  {
    RandAt(rng, d, 1, 15) * 4 + RandAt(rng, d + 1, 0, 2)
  }

  /** What n consecutive calls of rand(lo, hi) return, starting at draw d. */
  function DrawRun(rng: nat -> nat, lo: int, hi: int, d: nat, n: nat): (r: seq<int>)
    requires lo <= hi
    ensures |r| == n
  {
    if n == 0 then [] else DrawRun(rng, lo, hi, d, n - 1) + [RandAt(rng, d + n - 1, lo, hi)]
  }

  /** generate_keys_txt(name, num) for each num in turn. */
  function KeyTexts(mac: Sha256Hex, name: string, nums: seq<int>): (ks: seq<string>)
    ensures |ks| == |nums|
  {
    if nums == [] then [] else KeyTexts(mac, name, nums[..|nums| - 1]) + [KeysText(mac, name, nums[|nums| - 1])]
  }

  /** Every key of a run is 12 hex characters: a 6-byte MIFARE key. */
  lemma {:induction false} KeyTextsShape(mac: Sha256Hex, name: string, nums: seq<int>)
    ensures forall i :: 0 <= i < |nums| ==> |KeyTexts(mac, name, nums)[i]| == 12
  {
    if nums != [] {
      var prefix := nums[..|nums| - 1];
      KeyTextsShape(mac, name, prefix);
      var ks := KeyTexts(mac, name, nums);
      assert forall i :: 0 <= i < |prefix| ==> ks[i] == KeyTexts(mac, name, prefix)[i];
    }
  }

  /** The sixteen keys initfob appends to a key list, from the sixteen draws starting at d. */
  function NewKeys(mac: Sha256Hex, name: string, rng: nat -> nat, top: nat, d: nat): (ks: seq<string>)
    ensures |ks| == 16
  {
    KeyTexts(mac, name, DrawRun(rng, 0, top, d, 16))
  }

  /** n characters of Charset from the draws starting at d. */
  function CharRun(rng: nat -> nat, d: nat, n: nat): (e: string)
    ensures |e| == n
  {
    if n == 0 then "" else CharRun(rng, d, n - 1) + [HexDigit(RandAt(rng, d + n - 1, 0, 15))]
  }

  /** The character at index k of Charset, by arithmetic. */
  function HexDigit(k: int): (c: char)
    requires 0 <= k < 16
  {
    if k < 10 then ('0' as int + k) as char else ('a' as int + k - 10) as char
  }

  /** HexDigit is Charset's indexing. */
  lemma HexDigitIsCharset(k: int)
    requires 0 <= k < 16
    ensures HexDigit(k) == Charset[k] && HexDigit(k) in Charset
  {
  }

  lemma {:induction false} CharRunHex(rng: nat -> nat, d: nat, n: nat)
    ensures forall x :: 0 <= x < n ==> CharRun(rng, d, n)[x] in Charset
  {
    if n > 0 {
      CharRunHex(rng, d, n - 1);
      var prefix := CharRun(rng, d, n - 1);
      var e := CharRun(rng, d, n);
      assert forall x :: 0 <= x < n - 1 ==> e[x] == prefix[x];
      HexDigitIsCharset(RandAt(rng, d + n - 1, 0, 15));
    }
  }

  /** n filler entries of 16 characters each, from the 16n draws starting at d. */
  function EntryRun(rng: nat -> nat, d: nat, n: nat): (f: seq<string>)
    ensures |f| == n
  {
    if n == 0 then [] else EntryRun(rng, d, n - 1) + [CharRun(rng, d + 16 * (n - 1), 16)]
  }

  lemma {:induction false} EntryRunHex(rng: nat -> nat, d: nat, n: nat)
    ensures forall k :: 0 <= k < n ==> |EntryRun(rng, d, n)[k]| == 16
    ensures forall k, x :: 0 <= k < n && 0 <= x < 16 ==> EntryRun(rng, d, n)[k][x] in Charset
  {
    if n > 0 {
      EntryRunHex(rng, d, n - 1);
      CharRunHex(rng, d + 16 * (n - 1), 16);
      var prefix := EntryRun(rng, d, n - 1);
      var f := EntryRun(rng, d, n);
      assert forall k :: 0 <= k < n - 1 ==> f[k] == prefix[k];
    }
  }

  /** The entries of m + k draws-blocks are those of the first m followed by those of the next k. */
  lemma {:induction false} EntryRunSplit(rng: nat -> nat, d: nat, m: nat, k: nat)
    ensures EntryRun(rng, d, m + k) == EntryRun(rng, d, m) + EntryRun(rng, d + 16 * m, k)
  {
    if k > 0 {
      EntryRunSplit(rng, d, m, k - 1);
      assert d + 16 * m + 16 * (k - 1) == d + 16 * (m + k - 1);
      assert EntryRun(rng, d + 16 * m, k) == EntryRun(rng, d + 16 * m, k - 1) + [CharRun(rng, d + 16 * (m + k - 1), 16)];
    }
  }

  /** get_rand_filler from the 960 draws starting at d: 60 entries (15 sectors of 4 blocks). */
  function Filler(rng: nat -> nat, d: nat): (f: seq<string>)
    ensures |f| == 60
  {
    EntryRun(rng, d, 60)
  }

  /** Appending the next four entries to a run of entries extends the run. */
  lemma EntryRunAppend(rng: nat -> nat, d: nat, run: seq<string>, next: seq<string>, k: nat)
    requires run == EntryRun(rng, d, |run|) && next == EntryRun(rng, d + 16 * |run|, k)
    ensures |run + next| == |run| + k && run + next == EntryRun(rng, d, |run| + k)
  {
    EntryRunSplit(rng, d, |run|, k);
  }

  /** Every filler entry is 16 characters of Charset, whatever rand() returns. */
  lemma FillerIsHex(rng: nat -> nat, d: nat)
    ensures forall k :: 0 <= k < 60 ==> |Filler(rng, d)[k]| == 16
    ensures forall k, x :: 0 <= k < 60 && 0 <= x < 16 ==> Filler(rng, d)[k][x] in Charset
  {
    EntryRunHex(rng, d, 60);
  }

  /** Every key initfob appends is 12 characters long. */
  lemma NewKeysShape(mac: Sha256Hex, name: string, rng: nat -> nat, top: nat, d: nat)
    ensures forall i :: 0 <= i < 16 ==> |NewKeys(mac, name, rng, top, d)[i]| == 12
  {
    KeyTextsShape(mac, name, DrawRun(rng, 0, top, d, 16));
  }

  /** A stored key list: an array, or nothing yet; None where `[] =` raises on a scalar. */
  function KeyList(v: Value): (l: Option<seq<string>>)
    ensures v.Null? ==> l == Some([])
    ensures v.List? ==> l == Some(v.items)
    ensures v.Int? || v.Str? ==> l.None?
  {
    match v
    case Null => Some([])
    case List(items) => Some(items)
    case _ => None
  }

  /**
   * The record initfob writes: the block, the starting counters, both key
   * lists, the read and write keys of the block's sector, and the number
   * the first tag text is derived from.
   */
  function InitRecord(rec: Record, block: int, keya: seq<string>, keyb: seq<string>, num: int): Record
    requires 4 <= block < 64 && |keya| >= 16 && |keyb| >= 16
  {
    rec["anti_tamper_block" := Int(block)]["anti_tamper_num" := Int(3)]["anti_tamper_len" := Int(8)]["used_cnt" := Int(1)]
       ["keya" := List(keya)]["keyb" := List(keyb)]
       ["anti_tamper_block_readkey" := Str(keya[block / 4])]["anti_tamper_block_writekey" := Str(keyb[block / 4])]
       ["anti_tamper_num" := Int(num)]
  }

  const InitFields: set<string> := {"anti_tamper_block", "anti_tamper_num", "anti_tamper_len", "used_cnt", "keya", "keyb",
                                    "anti_tamper_block_readkey", "anti_tamper_block_writekey"}

  /** InitRecord stores the block, the counters, both key lists and the sector's keys, and keeps every other field. */
  lemma InitRecordFields(rec: Record, block: int, keya: seq<string>, keyb: seq<string>, num: int)
    requires 4 <= block < 64 && |keya| >= 16 && |keyb| >= 16
    ensures var r := InitRecord(rec, block, keya, keyb, num);
      && Get(r, "anti_tamper_block") == Int(block) && Get(r, "anti_tamper_len") == Int(8) && Get(r, "used_cnt") == Int(1)
      && Get(r, "anti_tamper_num") == Int(num)
      && Get(r, "keya") == List(keya) && Get(r, "keyb") == List(keyb)
      && Get(r, "anti_tamper_block_readkey") == Str(keya[block / 4]) && Get(r, "anti_tamper_block_writekey") == Str(keyb[block / 4])
      && (forall f :: f in rec ==> f in r)
      && forall f :: f in rec && f !in InitFields ==> r[f] == rec[f]
  {
  }

  /** An initialised tag without a device list is served its read key on the next stage 1. */
  lemma InitLeadsToReadKey(keys: map<string, Record>, uid: string, device: string, block: int, keya: seq<string>, keyb: seq<string>, num: int)
    requires uid in keys && "reset" !in keys[uid] && "device_ids" !in keys[uid]
    requires 4 <= block < 64 && |keya| >= 16 && |keyb| >= 16
    ensures Stage1Route(keys[uid := InitRecord(keys[uid], block, keya, keyb, num)], uid, device) == SendReadKey
  {
    var r := InitRecord(keys[uid], block, keya, keyb, num);
    InitRecordFields(keys[uid], block, keya, keyb, num);
    assert "reset" !in r by {
      assert "reset" !in InitFields;
    }
    assert "device_ids" !in r by {
      assert "device_ids" !in InitFields;
    }
  }

  /* ---------------- stage 4 ---------------- */

  /** The code stage 4 evidently means to validate: $googlecode, the gcode without its 4-character PIN. */
  function Stage4Code(gcode: string, withPin: bool): (c: string)
    ensures withPin && |gcode| >= 4 ==> gcode == gcode[..4] + c
    ensures !withPin ==> c == gcode
  {
    if withPin then Substr(gcode, 4, |gcode|) else gcode
  }

  /** The secret as the Auth constructor receives it: null sets nothing, an array makes preg_match raise. */
  function SecretText(v: Value): Outcome<Option<string>>
  {
    match v
    case Null => Returned(None)
    case Int(i) => Returned(Some(IntText(i)))
    case Str(s) => Returned(Some(s))
    case List(_) => Raised("preg_match(): Argument #2 ($subject) must be of type string, array given")
  }

  /** new Auth(secret) followed by validateCode(code) at the current time step. */
  ghost function SecretValidation(sha1: Sha1Hmac, secret: Value, code: string, step: int): Outcome<bool>
  {
    match SecretText(secret)
    case Raised(m) => Raised(m)
    case Returned(k) =>
      if k.Some? && !Accepted(k.value) then Raised("Invalid base32 hash!")
      else Validation(sha1, k, 6, code, None, 0, 2, step)
  }

  /** The 6-digit helper raises for a code of any other length, whatever the secret: so it does for the 10 characters of PIN and code. */
  lemma WholeCodeAlwaysRaises(sha1: Sha1Hmac, secret: Value, gcode: string, step: int)
    requires |gcode| != 6
    ensures SecretValidation(sha1, secret, gcode, step).Raised?
  {
    match SecretText(secret)
    case Raised(_) =>
    case Returned(k) =>
      if k.None? || Accepted(k.value) {
        assert Validation(sha1, k, 6, gcode, None, 0, 2, step) == Raised("Incorrect code length");
      }
  }

  /** With the PIN stripped, a valid secret leads to the window check on the six code digits. */
  lemma StrippedCodeReachesWindow(sha1: Sha1Hmac, s: string, gcode: string, step: int)
    requires |gcode| == 10 && Accepted(s)
    ensures var code := Stage4Code(gcode, true);
      |code| == 6 &&
      SecretValidation(sha1, Str(s), code, step) == Returned(WindowMatch(sha1, Some(s), 6, Base32Decoded(s), code, step, 2, step))
  {
    var code := Stage4Code(gcode, true);
    assert code == gcode[4..];
  }

  /* ---------------- tag text round trips ---------------- */

  /**
   * A visit that completes: stage 2 accepts the tag and issues the text for
   * a fresh number; once the tag holds that text, stage 3 accepts it and
   * commits, and the committed record accepts the same text in stage 4 and
   * in the next stage 2; under the exact check and the one as written alike.
   */
  lemma VisitRoundTrip(mac: Sha256Hex, rec: Record, newNum: int, date: string, date2: string)
    requires Increment(Get(rec, "used_cnt")).Some?
    ensures var name := ValueText(Get(rec, "key_name"));
      var issued := AntitamperText(mac, name, Int(newNum));
      var r1 := RotateFresh(rec, newNum, date);
      && CheckAntitamper(mac, ValueText(Get(r1, "key_name")), Get(r1, "anti_tamper_num_temp"), PostedText(issued))
      && CheckAntitamperLoose(mac, ValueText(Get(r1, "key_name")), Get(r1, "anti_tamper_num_temp"), PostedText(issued))
      && Commit(r1, date2).Some?
      && CheckAntitamper(mac, ValueText(Get(Commit(r1, date2).value, "key_name")), Get(Commit(r1, date2).value, "anti_tamper_num"), PostedText(issued))
      && CheckAntitamperLoose(mac, ValueText(Get(Commit(r1, date2).value, "key_name")), Get(Commit(r1, date2).value, "anti_tamper_num"), PostedText(issued))
  {
    var r1 := RotateFresh(rec, newNum, date);
    RotateFreshFields(rec, newNum, date);
    CommitFields(r1, date2);
    LooseEqReflexive(AntitamperText(mac, ValueText(Get(rec, "key_name")), Int(newNum)));
  }

  /**
   * The interrupted visit: the tag took the new text but stage 3 never ran.
   * Unless the text also matches the old number, the next stage 2 takes the
   * recovery branch, and afterwards the record's current number is the one
   * the tag holds.
   */
  lemma RaceRecovery(mac: Sha256Hex, rec: Record, newNum: int, next: int, date: string, date2: string)
    ensures var name := ValueText(Get(rec, "key_name"));
      var issued := AntitamperText(mac, name, Int(newNum));
      var r1 := RotateFresh(rec, newNum, date);
      var r2 := RotateRace(r1, next, date2);
      && CheckAntitamper(mac, ValueText(Get(r1, "key_name")), Get(r1, "anti_tamper_num_temp"), PostedText(issued))
      && CheckAntitamperLoose(mac, ValueText(Get(r1, "key_name")), Get(r1, "anti_tamper_num_temp"), PostedText(issued))
      && CheckAntitamper(mac, ValueText(Get(r2, "key_name")), Get(r2, "anti_tamper_num"), PostedText(issued))
      && CheckAntitamperLoose(mac, ValueText(Get(r2, "key_name")), Get(r2, "anti_tamper_num"), PostedText(issued))
  {
    var r1 := RotateFresh(rec, newNum, date);
    RotateFreshFields(rec, newNum, date);
    RotateRaceFields(r1, next, date2);
    LooseEqReflexive(AntitamperText(mac, ValueText(Get(rec, "key_name")), Int(newNum)));
  }

  /* ---------------- the server ---------------- */

  class Server {
    /** rfid.txt: tag UID to record. */
    var keys: map<string, Record>
    /** googleauth.txt: PIN to record (GAuthSecret); only read. */
    const gauthUsers: map<string, Record>
    /** The raw values rand() draws, in order, and how many were drawn so far. */
    const rng: nat -> nat
    var draws: nat
    /** getrandmax(): the largest value rand() returns. */
    const randMax: nat
    const mac: Sha256Hex
    const sha1: Sha1Hmac
    /** unknown_uids.txt and antitamper_temp_race_condition.txt, line by line. */
    var unknownLog: seq<string>
    var raceLog: seq<string>
    /** Calls of the door and alarm hooks. */
    var events: seq<Event>

    constructor (keys: map<string, Record>, gauthUsers: map<string, Record>, rng: nat -> nat, mac: Sha256Hex, sha1: Sha1Hmac)
      ensures this.keys == keys && this.gauthUsers == gauthUsers && this.rng == rng && this.mac == mac && this.sha1 == sha1
      ensures draws == 0 && unknownLog == [] && raceLog == [] && events == [] && randMax == RandMax
    {
      randMax := RandMax;
      this.keys := keys;
      this.gauthUsers := gauthUsers;
      this.rng := rng;
      this.mac := mac;
      this.sha1 := sha1;
      draws := 0;
      unknownLog := [];
      raceLog := [];
      events := [];
    }

    /** rand(lo, hi): the next draw, brought into range. */
    method Rand(lo: int, hi: int) returns (n: int)
      requires lo <= hi
      modifies this`draws
      ensures n == RandAt(rng, old(draws), lo, hi) && draws == old(draws) + 1
    {
      n := RandAt(rng, draws, lo, hi);
      draws := draws + 1;
    }

    /**
     * What one request leaves, by the branch Route picks: the refusal or no
     * output for a rejected or unrouted request, and otherwise what the
     * branch's own method states. Only stages 1 to 3 may change the database,
     * only stage 1 logs unknown tags, only stage 2 logs races, and only
     * stages 1 and 2 draw random numbers.
     */
    ghost predicate HandleDone(keys0: map<string, Record>, draws0: nat, unknownLog0: seq<string>, raceLog0: seq<string>, events0: seq<Event>,
                               req: Request, date: string, step: int, reply: Reply)
      reads this
    {
      var uid, device := Text(req.uid), Text(req.deviceId);
      && (Route(req) != Stage1Branch ==> unknownLog == unknownLog0)
      && (Route(req) != Stage2Branch ==> raceLog == raceLog0)
      && (Route(req) != Stage1Branch && Route(req) != Stage2Branch ==> draws == draws0)
      && match Route(req)
      case Reject => reply == Plain("Not enough arguments! Sorry mate :)") && keys == keys0 && events == events0
      case ChinaUidBranch =>
        && reply == Status("err") && keys == keys0
        && events == events0 + [CloneAlarm(device, uid, if uid in keys0 then Get(keys0[uid], "key_name") else Str("unknown"))]
      case KeyAuthBranch => keys == keys0 && KeyAuthDone(events0, CastText(Field(req.key)), uid, device, step, reply)
      case Stage1Branch => Stage1Done(keys0, draws0, unknownLog0, events0, uid, device, date, reply)
      case Stage2Branch => events == events0 && Stage2Done(keys0, draws0, raceLog0, uid, Field(req.key), date, reply)
      case Stage3Branch => Stage3Done(keys0, events0, uid, device, Field(req.key), Field(req.doorcmd), date, reply)
      case Stage4Branch =>
        keys == keys0 && Stage4Done(keys0, events0, uid, device, Field(req.key), Field(req.doorcmd), Text(req.gcode), step, reply)
      case NoBranch => reply == NoOutput && keys == keys0 && events == events0
    }

    /** One whole request. */
    method Handle(req: Request, date: string, step: int) returns (reply: Reply)
      modifies this
      ensures HandleDone(old(keys), old(draws), old(unknownLog), old(raceLog), old(events), req, date, step, reply)
    {
      var uid, device, key := Text(req.uid), Text(req.deviceId), Field(req.key);
      match Route(req)
      case Reject => reply := Plain("Not enough arguments! Sorry mate :)");
      case ChinaUidBranch => reply := ChinaUid(uid, device);
      case KeyAuthBranch => reply := KeyAuth(CastText(key), uid, device, step);
      case Stage1Branch => reply := Stage1(uid, device, date);
      case Stage2Branch => reply := Stage2(uid, key, date);
      case Stage3Branch => reply := Stage3(uid, device, key, Field(req.doorcmd), date);
      case Stage4Branch => reply := Stage4(uid, device, key, Field(req.doorcmd), Text(req.gcode), step);
      case NoBranch => reply := NoOutput;
    }

    /** A cloned tag: the alarm hook with the owner's name (or "unknown"), and "err". */
    method ChinaUid(uid: string, device: string) returns (reply: Reply)
      modifies this`events
      ensures reply == Status("err")
      ensures events == old(events) + [CloneAlarm(device, uid, if uid in keys then Get(keys[uid], "key_name") else Str("unknown"))]
    {
      var name := if uid in keys then Get(keys[uid], "key_name") else Str("unknown");
      events := events + [CloneAlarm(device, uid, name)];
      reply := Status("err");
    }

    /** new Auth(secret) and validateCode(code) at the current step. */
    method Validate(secret: Value, code: string, step: int) returns (o: Outcome<bool>)
      ensures o == SecretValidation(sha1, secret, code, step)
    {
      var g := new Auth(sha1);
      match SecretText(secret)
      case Raised(m) =>
        return Raised(m);
      case Returned(k) =>
        if k.Some? {
          var installed := g.SetInitKey(k.value);
          if installed.Raised? {
            return Raised(installed.message);
          }
        }
        o := g.ValidateCode(code, None, 0, 0, step);
    }

    /** What keyauth leaves: "sorry" unless the key has 10 characters, "err" for an unknown PIN, otherwise the validation's outcome. */
    ghost predicate KeyAuthDone(events0: seq<Event>, key: string, uid: string, device: string, step: int, reply: Reply)
      reads this
    {
      && (|key| != 10 ==> reply == Plain("sorry") && events == events0)
      && (|key| == 10 && key[..4] !in gauthUsers ==> reply == Status("err") && events == events0)
      && (|key| == 10 && key[..4] in gauthUsers ==>
            var v := SecretValidation(sha1, Get(gauthUsers[key[..4]], "GAuthSecret"), key[4..], step);
            && (v.Raised? ==> reply == Crash(v.message) && events == events0)
            && (v == Returned(true) ==> reply == Status("kk") && events == events0 + [DoorToggle(device, uid)])
            && (v == Returned(false) ==> reply == Status("err") && events == events0))
    }

    /**
     * keyauth: a 10-character key is a 4-character PIN and a 6-digit code;
     * a known PIN whose secret validates the code toggles the door.
     */
    method KeyAuth(key: string, uid: string, device: string, step: int) returns (reply: Reply)
      modifies this`events
      ensures KeyAuthDone(old(events), key, uid, device, step, reply)
    {
      if key != "" && |key| == 10 {
        var pin := Substr(key, 0, 4);
        var code := Substr(key, 4, |key|);
        if pin in gauthUsers {
          var v := Validate(Get(gauthUsers[pin], "GAuthSecret"), code, step);
          match v
          case Raised(m) =>
            reply := Crash(m);
          case Returned(ok) =>
            if ok {
              events := events + [DoorToggle(device, uid)];
              reply := Status("kk");
            } else {
              reply := Status("err");
            }
        } else {
          reply := Status("err");
        }
      } else {
        reply := Plain("sorry");
      }
    }

    /** What stage 1 leaves, by Stage1Route. */
    ghost predicate Stage1Done(keys0: map<string, Record>, draws0: nat, unknownLog0: seq<string>, events0: seq<Event>, uid: string, device: string, date: string, reply: Reply)
      reads this
    {
      && (Stage1Route(keys0, uid, device) == LogUnknown ==>
            reply == Status("err") && keys == keys0 &&
            unknownLog == unknownLog0 + [date + " " + uid + "\n"] && events == events0 + [UnknownAlarm(device, uid)])
      && (Stage1Route(keys0, uid, device) == Reset ==>
            keys == keys0[uid := ResetRecord(keys0[uid])] &&
            reply == Json(map["status" := Str("reset"), "keya" := Get(keys0[uid], "keya"), "keyb" := Get(keys0[uid], "keyb")]))
      && (Stage1Route(keys0, uid, device) == Init ==> PopulateDone(keys0, draws0, uid, reply))
      && (Stage1Route(keys0, uid, device) == SendReadKey ==>
            keys == keys0 &&
            reply == ReadOrder(keys0[uid]))
      && (Stage1Route(keys0, uid, device) == RefuseDevice ==>
            keys == keys0 && reply == Json(map["status" := Str("err"), "message" := Str("You're not allowed on this device!")]))
      && (Stage1Route(keys0, uid, device) == DeviceListBroken ==> keys == keys0 && reply.Crash?)
      && (Stage1Route(keys0, uid, device) == Silent ==> keys == keys0 && reply == NoOutput)
      && (Stage1Route(keys0, uid, device) != LogUnknown ==> unknownLog == unknownLog0 && events == events0)
      && (Stage1Route(keys0, uid, device) != Init ==> draws == draws0)
    }

    /**
     * stage1: an unknown UID is logged and refused; a record marked for
     * reset is reset; an initialised tag gets its read key if the device is
     * allowed; a named record without keys is initialised.
     */
    method Stage1(uid: string, device: string, date: string) returns (reply: Reply)
      modifies this`keys, this`draws, this`unknownLog, this`events
      ensures Stage1Done(old(keys), old(draws), old(unknownLog), old(events), uid, device, date, reply)
    {
      match Stage1Route(keys, uid, device)
      case LogUnknown =>
        unknownLog := unknownLog + [date + " " + uid + "\n"];
        events := events + [UnknownAlarm(device, uid)];
        reply := Status("err");
      case Reset =>
        reply := ResetFob(uid);
      case SendReadKey =>
        reply := ReadOrder(keys[uid]);
      case RefuseDevice =>
        reply := Json(map["status" := Str("err"), "message" := Str("You're not allowed on this device!")]);
      case DeviceListBroken =>
        reply := Crash("in_array(): Argument #2 ($haystack) must be of type array");
      case Init =>
        reply := InitFob(uid);
      case Silent =>
        reply := NoOutput;
    }

    /** The reply of a stage 1 for a known fob on an allowed device: the anti-tamper block, its read key and its length. */
    static function ReadOrder(rec: Record): Reply
    {
      Json(map["status" := Str("k"), "antiblk" := Get(rec, "anti_tamper_block"),
               "key" := Get(rec, "anti_tamper_block_readkey"), "len" := Get(rec, "anti_tamper_len")])
    }

    /** The reply of a stage 2 that accepted the tag: the block, its write key and the text to write. */
    static function WriteOrder(rec: Record, txt: string): Reply
    {
      Json(map["status" := Str("kk"), "setantiblk" := Get(rec, "anti_tamper_block"),
               "key" := Get(rec, "anti_tamper_block_writekey"), "txt" := Str(txt)])
    }

    /** What stage 2 leaves: a rotation after the current or the pending text matched, otherwise "err" and nothing changed. */
    ghost predicate Stage2Done(keys0: map<string, Record>, draws0: nat, raceLog0: seq<string>, uid: string, key: Posted, date: string, reply: Reply)
      reads this
    {
      && (uid !in keys0 ==> reply == Status("err") && keys == keys0 && draws == draws0 && raceLog == raceLog0)
      && (uid in keys0 && CheckAntitamperLoose(mac, ValueText(Get(keys0[uid], "key_name")), Get(keys0[uid], "anti_tamper_num"), key) ==>
            RotateDone(keys0, draws0, raceLog0, uid, false, date, reply))
      && ((uid in keys0 && !CheckAntitamperLoose(mac, ValueText(Get(keys0[uid], "key_name")), Get(keys0[uid], "anti_tamper_num"), key) &&
                   CheckAntitamperLoose(mac, ValueText(Get(keys0[uid], "key_name")), Get(keys0[uid], "anti_tamper_num_temp"), key)) ==>
            RotateDone(keys0, draws0, raceLog0, uid, true, date, reply))
      && ((uid in keys0 && !CheckAntitamperLoose(mac, ValueText(Get(keys0[uid], "key_name")), Get(keys0[uid], "anti_tamper_num"), key) &&
                   !CheckAntitamperLoose(mac, ValueText(Get(keys0[uid], "key_name")), Get(keys0[uid], "anti_tamper_num_temp"), key)) ==>
            reply == Status("err") && keys == keys0 && draws == draws0 && raceLog == raceLog0)
    }

    /**
     * stage2: the tag's text is checked against the current number, then
     * against the pending one; either way a fresh number is drawn and its
     * text sent to be written (Rotate); otherwise "err" and nothing changes.
     */
    method Stage2(uid: string, key: Posted, date: string) returns (reply: Reply)
      modifies this`keys, this`draws, this`raceLog
      ensures Stage2Done(old(keys), old(draws), old(raceLog), uid, key, date, reply)
    {
      if uid !in keys {
        return Status("err");
      }
      var rec := keys[uid];
      var name := ValueText(Get(rec, "key_name"));
      if CheckAntitamperLoose(mac, name, Get(rec, "anti_tamper_num"), key) {
        reply := Rotate(uid, false, date);
      } else if CheckAntitamperLoose(mac, name, Get(rec, "anti_tamper_num_temp"), key) {
        reply := Rotate(uid, true, date);
      } else {
        reply := Status("err");
      }
    }

    /**
     * What stage 2 leaves once the tag has been accepted: a fresh number
     * drawn and pending (RotateFresh), or, when the tag showed the pending
     * text, that number made current first and the race logged
     * (RotateRace); the reply orders the fresh text written.
     */
    ghost predicate RotateDone(keys0: map<string, Record>, draws0: nat, raceLog0: seq<string>, uid: string, race: bool, date: string, reply: Reply)
      requires uid in keys0
      reads this
    {
      var rec := keys0[uid];
      var name := ValueText(Get(rec, "key_name"));
      var n := RandAt(rng, draws0, 0, randMax);
      && draws == draws0 + 1
      && keys == keys0[uid := if race then RotateRace(rec, n, date) else RotateFresh(rec, n, date)]
      && raceLog == (if race then raceLog0 + [date + " " + uid + " " + name + "\n"] else raceLog0)
      && reply == WriteOrder(rec, AntitamperText(mac, name, Int(n)))
    }

    method Rotate(uid: string, race: bool, date: string) returns (reply: Reply)
      requires uid in keys
      modifies this`keys, this`draws, this`raceLog
      ensures RotateDone(old(keys), old(draws), old(raceLog), uid, race, date, reply)
    {
      var rec := keys[uid];
      var name := ValueText(Get(rec, "key_name"));
      var n := Rand(0, randMax);
      var code := AntitamperText(mac, name, Int(n));
      keys := keys[uid := if race then RotateRace(rec, n, date) else RotateFresh(rec, n, date)];
      if race {
        raceLog := raceLog + [date + " " + uid + " " + name + "\n"];
      }
      reply := WriteOrder(rec, code);
    }

    /**
     * What stage 3 leaves: "err" and nothing changed for an unknown UID or a
     * tag text that does not match the pending number; otherwise the visit
     * committed and the door command carried out (CommitVisitDone).
     */
    ghost predicate Stage3Done(keys0: map<string, Record>, events0: seq<Event>, uid: string, device: string, key: Posted, doorcmd: Posted, date: string, reply: Reply)
      reads this
    {
      && (uid !in keys0 ==> reply == Status("err") && keys == keys0 && events == events0)
      && (uid in keys0 && !CheckAntitamperLoose(mac, ValueText(Get(keys0[uid], "key_name")), Get(keys0[uid], "anti_tamper_num_temp"), key) ==>
            reply == Status("err") && keys == keys0 && events == events0)
      && (uid in keys0 && CheckAntitamperLoose(mac, ValueText(Get(keys0[uid], "key_name")), Get(keys0[uid], "anti_tamper_num_temp"), key) ==>
            CommitVisitDone(keys0, events0, uid, device, doorcmd, date, reply))
    }

    /**
     * stage3: the tag must now hold the pending text; then the record is
     * committed and the door command carried out (CommitVisit).
     */
    method Stage3(uid: string, device: string, key: Posted, doorcmd: Posted, date: string) returns (reply: Reply)
      modifies this`keys, this`events
      ensures Stage3Done(old(keys), old(events), uid, device, key, doorcmd, date, reply)
    {
      if uid !in keys {
        return Status("err");
      }
      var rec := keys[uid];
      if !CheckAntitamperLoose(mac, ValueText(Get(rec, "key_name")), Get(rec, "anti_tamper_num_temp"), key) {
        return Status("err");
      }
      reply := CommitVisit(uid, device, doorcmd, date);
    }

    /**
     * What stage 3 leaves once the tag has shown the pending text: the
     * record committed (or an uncaught error for an uncountable used_cnt),
     * then "open" asks for the second factor if one is set up (10, 6 or 4
     * characters) or opens the door, and "close" closes it; the command is
     * compared with loose ==, so a posted true counts as "open".
     */
    ghost predicate CommitVisitDone(keys0: map<string, Record>, events0: seq<Event>, uid: string, device: string, doorcmd: Posted, date: string, reply: Reply)
      requires uid in keys0
      reads this
    {
      var rec := keys0[uid];
      && (Commit(rec, date).None? ==> reply.Crash? && keys == keys0 && events == events0)
      && (Commit(rec, date).Some? ==>
            && keys == keys0[uid := Commit(rec, date).value]
            && (LooseEqPosted("open", doorcmd) && CodeDigits(rec).Some? ==>
                  reply == Json(map["status" := Str("getcode"), "num" := Int(CodeDigits(rec).value)]) && events == events0)
            && (LooseEqPosted("open", doorcmd) && CodeDigits(rec).None? ==>
                  reply == Status("done") && events == events0 + [DoorOpen(device, uid)])
            && (!LooseEqPosted("open", doorcmd) && LooseEqPosted("close", doorcmd) ==> reply == Status("done") && events == events0 + [DoorClose(device, uid)])
            && (!LooseEqPosted("open", doorcmd) && !LooseEqPosted("close", doorcmd) ==> reply == NoOutput && events == events0))
    }

    method CommitVisit(uid: string, device: string, doorcmd: Posted, date: string) returns (reply: Reply)
      requires uid in keys
      modifies this`keys, this`events
      ensures CommitVisitDone(old(keys), old(events), uid, device, doorcmd, date, reply)
    {
      var rec := keys[uid];
      var committed := Commit(rec, date);
      if committed.None? {
        return Crash("Unsupported operand types: array + int");
      }
      keys := keys[uid := committed.value];
      if LooseEqPosted("open", doorcmd) {
        var digits := CodeDigits(committed.value);
        CommitFields(rec, date);
        assert digits == CodeDigits(rec);
        if digits.Some? {
          reply := Json(map["status" := Str("getcode"), "num" := Int(digits.value)]);
        } else {
          events := events + [DoorOpen(device, uid)];
          reply := Status("done");
        }
      } else if LooseEqPosted("close", doorcmd) {
        events := events + [DoorClose(device, uid)];
        reply := Status("done");
      } else {
        reply := NoOutput;
      }
    }

    /**
     * The door command of a stage 4 that passed: "open" and "close" (by
     * loose ==, so true is "open") are carried out, anything else gets no
     * answer.
     */
    ghost predicate DoorDone(events0: seq<Event>, device: string, uid: string, doorcmd: Posted, reply: Reply)
      reads this
    {
      && (LooseEqPosted("open", doorcmd) ==> reply == Status("done") && events == events0 + [DoorOpen(device, uid)])
      && (!LooseEqPosted("open", doorcmd) && LooseEqPosted("close", doorcmd) ==> reply == Status("done") && events == events0 + [DoorClose(device, uid)])
      && (!LooseEqPosted("open", doorcmd) && !LooseEqPosted("close", doorcmd) ==> reply == NoOutput && events == events0)
    }

    method DoorAction(device: string, uid: string, doorcmd: Posted) returns (reply: Reply)
      modifies this`events
      ensures DoorDone(old(events), device, uid, doorcmd, reply)
    {
      if LooseEqPosted("open", doorcmd) {
        events := events + [DoorOpen(device, uid)];
        reply := Status("done");
      } else if LooseEqPosted("close", doorcmd) {
        events := events + [DoorClose(device, uid)];
        reply := Status("done");
      } else {
        reply := NoOutput;
      }
    }

    /** What stage 4 leaves: "err" for an unknown UID or a text that does not match the current number, otherwise the second factor. */
    ghost predicate Stage4Done(keys0: map<string, Record>, events0: seq<Event>, uid: string, device: string, key: Posted, doorcmd: Posted, gcode: string, step: int, reply: Reply)
      reads this
    {
      && (uid !in keys0 ==> reply == Status("err") && events == events0)
      && (uid in keys0 && !CheckAntitamperLoose(mac, ValueText(Get(keys0[uid], "key_name")), Get(keys0[uid], "anti_tamper_num"), key) ==>
            reply == Status("err") && events == events0)
      && (uid in keys0 && CheckAntitamperLoose(mac, ValueText(Get(keys0[uid], "key_name")), Get(keys0[uid], "anti_tamper_num"), key) ==>
            SecondFactorDone(events0, keys0[uid], uid, device, doorcmd, gcode, step, reply))
    }

    /**
     * stage4: the tag text again, then the second factor (SecondFactor);
     * the database is not touched.
     */
    method Stage4(uid: string, device: string, key: Posted, doorcmd: Posted, gcode: string, step: int) returns (reply: Reply)
      modifies this`events
      ensures Stage4Done(keys, old(events), uid, device, key, doorcmd, gcode, step, reply)
    {
      if uid !in keys {
        return Status("err");
      }
      var rec := keys[uid];
      if !CheckAntitamperLoose(mac, ValueText(Get(rec, "key_name")), Get(rec, "anti_tamper_num"), key) {
        return Status("err");
      }
      reply := SecondFactor(rec, uid, device, doorcmd, gcode, step);
    }

    /**
     * What stage 4 does once the tag text matched: with a TOTP secret, the
     * PIN (if one is set up) must match the first four characters, and then
     * the whole gcode is validated, PIN included (Stage4Code, the gcode
     * without its PIN, is computed and left unused); with only a PIN, the
     * first four characters must match it; with neither, no answer. A pass
     * carries out the door command.
     */
    ghost predicate SecondFactorDone(events0: seq<Event>, rec: Record, uid: string, device: string, doorcmd: Posted, gcode: string, step: int, reply: Reply)
      reads this
    {
      && ("gauth_secret" in rec && "gauth_pin" in rec && !LooseEqValue(Substr(gcode, 0, 4), rec["gauth_pin"]) ==>
            reply == Status("err") && events == events0)
      && ("gauth_secret" in rec && ("gauth_pin" in rec ==> LooseEqValue(Substr(gcode, 0, 4), rec["gauth_pin"])) ==>
            TotpDone(events0, rec["gauth_secret"], gcode, uid, device, doorcmd, step, reply))
      && ("gauth_secret" !in rec && "nfc_pin" in rec && !LooseEqValue(Substr(gcode, 0, 4), rec["nfc_pin"]) ==>
            reply == Status("err") && events == events0)
      && ("gauth_secret" !in rec && "nfc_pin" in rec && LooseEqValue(Substr(gcode, 0, 4), rec["nfc_pin"]) ==>
            DoorDone(events0, device, uid, doorcmd, reply))
      && ("gauth_secret" !in rec && "nfc_pin" !in rec ==> reply == NoOutput && events == events0)
    }

    method SecondFactor(rec: Record, uid: string, device: string, doorcmd: Posted, gcode: string, step: int) returns (reply: Reply)
      modifies this`events
      ensures SecondFactorDone(old(events), rec, uid, device, doorcmd, gcode, step, reply)
    {
      if "gauth_secret" in rec {
        if "gauth_pin" in rec {
          var pin := Substr(gcode, 0, 4);
          if !LooseEqValue(pin, rec["gauth_pin"]) {
            return Status("err");
          }
        }
        var googlecode := Stage4Code(gcode, "gauth_pin" in rec);
        reply := Totp(rec["gauth_secret"], gcode, uid, device, doorcmd, step);
      } else if "nfc_pin" in rec {
        var pin := Substr(gcode, 0, 4);
        if !LooseEqValue(pin, rec["nfc_pin"]) {
          return Status("err");
        }
        reply := DoorAction(device, uid, doorcmd);
      } else {
        reply := NoOutput;
      }
    }

    /**
     * As written, a record with both a TOTP secret and a PIN never opens the
     * door at stage 4: the reader sends PIN and code together, 10
     * characters, and validating them all raises or the PIN is refused.
     */
    lemma PinnedSecondFactorNeverOpens(events0: seq<Event>, rec: Record, uid: string, device: string, doorcmd: Posted, gcode: string, step: int, reply: Reply)
      requires "gauth_secret" in rec && "gauth_pin" in rec && |gcode| != 6
      requires SecondFactorDone(events0, rec, uid, device, doorcmd, gcode, step, reply)
      ensures events == events0
      ensures reply == Status("err") || reply.Crash?
    {
      WholeCodeAlwaysRaises(sha1, rec["gauth_secret"], gcode, step);
    }

    /**
     * As written, a posted true in place of the tag text opens the door: a
     * stage-3 request for any known UID with key true and doorcmd "open"
     * reaches stage 3, passes the text check, commits the visit and, for a
     * fob without a second factor, opens the door; stated over what Handle
     * leaves (HandleDone).
     */
    lemma BoolKeyOpensStage3(keys0: map<string, Record>, draws0: nat, unknownLog0: seq<string>, raceLog0: seq<string>, events0: seq<Event>,
                             req: Request, date: string, step: int, reply: Reply)
      requires req.cmd == Some("stage3") && req.uid.Some? && req.uid.value != "" && req.uid.value in keys0 && Text(req.deviceId) != ""
      requires req.key == Some(PostedBool(true)) && req.doorcmd == Some(PostedText("open"))
      requires Commit(keys0[req.uid.value], date).Some? && CodeDigits(keys0[req.uid.value]).None?
      requires HandleDone(keys0, draws0, unknownLog0, raceLog0, events0, req, date, step, reply)
      ensures Route(req) == Stage3Branch
      ensures keys == keys0[req.uid.value := Commit(keys0[req.uid.value], date).value]
      ensures reply == Status("done") && events == events0 + [DoorOpen(Text(req.deviceId), req.uid.value)]
    {
      BoolKeyRoutesToStage3(req);
      BoolKeyCommitsAndOpens(keys0, events0, req.uid.value, Text(req.deviceId), date, reply);
    }

    /** Stage 3 itself, given key true and doorcmd "open": the visit is committed and the door opened. */
    lemma BoolKeyCommitsAndOpens(keys0: map<string, Record>, events0: seq<Event>, uid: string, device: string, date: string, reply: Reply)
      requires uid in keys0 && Commit(keys0[uid], date).Some? && CodeDigits(keys0[uid]).None?
      requires Stage3Done(keys0, events0, uid, device, PostedBool(true), PostedText("open"), date, reply)
      ensures keys == keys0[uid := Commit(keys0[uid], date).value]
      ensures reply == Status("done") && events == events0 + [DoorOpen(device, uid)]
    {
      var rec := keys0[uid];
      BoolKeyPassesCheck(mac, ValueText(Get(rec, "key_name")), Get(rec, "anti_tamper_num_temp"));
      assert CommitVisitDone(keys0, events0, uid, device, PostedText("open"), date, reply);
      LooseEqPostedWord("open", PostedText("open"));
    }

    /** The TOTP check of stage 4: an uncaught error, "err", or the door command. */
    ghost predicate TotpDone(events0: seq<Event>, secret: Value, code: string, uid: string, device: string, doorcmd: Posted, step: int, reply: Reply)
      reads this
    {
      var v := SecretValidation(sha1, secret, code, step);
      && (v.Raised? ==> reply == Crash(v.message) && events == events0)
      && (v == Returned(false) ==> reply == Status("err") && events == events0)
      && (v == Returned(true) ==> DoorDone(events0, device, uid, doorcmd, reply))
    }

    method Totp(secret: Value, code: string, uid: string, device: string, doorcmd: Posted, step: int) returns (reply: Reply)
      modifies this`events
      ensures TotpDone(old(events), secret, code, uid, device, doorcmd, step, reply)
    {
      var v := Validate(secret, code, step);
      match v
      case Raised(m) =>
        reply := Crash(m);
      case Returned(ok) =>
        if ok {
          reply := DoorAction(device, uid, doorcmd);
        } else {
          reply := Status("err");
        }
    }

    /**
     * resetfob: answers with the old key lists, so the reader can restore
     * the tag, and rebuilds the record from the name and the second factors.
     */
    method ResetFob(uid: string) returns (reply: Reply)
      requires uid in keys
      modifies this`keys
      ensures reply == Json(map["status" := Str("reset"), "keya" := Get(old(keys)[uid], "keya"), "keyb" := Get(old(keys)[uid], "keyb")])
      ensures keys == old(keys)[uid := ResetRecord(old(keys)[uid])]
    {
      var rec := keys[uid];
      reply := Json(map["status" := Str("reset"), "keya" := Get(rec, "keya"), "keyb" := Get(rec, "keyb")]);
      var saved := SaveFactors(rec);
      var rebuilt := Rebuild(Get(rec, "key_name"), saved);
      assert rebuilt.Keys == ResetRecord(rec).Keys;
      assert rebuilt == ResetRecord(rec);
      keys := keys[uid := rebuilt];
    }

    /** get_rand_block_to_write: a sector 1..15 and a data block 0..2 of it. */
    method GetRandBlockToWrite() returns (block: int)
      modifies this`draws
      ensures block == BlockFor(rng, old(draws)) && draws == old(draws) + 2
    {
      var sector := Rand(1, 15);
      var b := Rand(0, 2);
      block := sector * 4 + b;
    }

    /** One filler entry: 16 draws of rand(0, 15), each picking a character of Charset. */
    method RandEntry() returns (entry: string)
      modifies this`draws
      ensures entry == CharRun(rng, old(draws), 16) && draws == old(draws) + 16
    {
      ghost var d0 := draws;
      entry := "";
      for x := 0 to 16
        invariant entry == CharRun(rng, d0, x) && draws == d0 + x
      {
        var c := Rand(0, 15);
        HexDigitIsCharset(c);
        entry := entry + [Charset[c]];
      }
    }

    /** The four blocks of one sector of the filler. */
    method RandSector() returns (sector: seq<string>)
      modifies this`draws
      ensures sector == EntryRun(rng, old(draws), 4) && draws == old(draws) + 64
    {
      ghost var d0 := draws;
      sector := [];
      for b := 0 to 4
        invariant sector == EntryRun(rng, d0, b) && draws == d0 + 16 * b
      {
        var entry := RandEntry();
        sector := sector + [entry];
      }
    }

    /** get_rand_filler: 15 sectors of 4 blocks of 16 random hex characters. */
    method GetRandFiller() returns (filler: seq<string>)
      modifies this`draws
      ensures filler == Filler(rng, old(draws)) && draws == old(draws) + 960
    {
      ghost var d0 := draws;
      filler := [];
      for i := 0 to 15
        invariant |filler| == 4 * i && filler == EntryRun(rng, d0, |filler|) && draws == d0 + 16 * |filler|
      {
        var sector := RandSector();
        EntryRunAppend(rng, d0, filler, sector, 4);
        filler := filler + sector;
      }
    }

    /** count calls of rand(lo, hi). */
    method DrawNumbers(lo: int, hi: int, count: nat) returns (nums: seq<int>)
      requires lo <= hi
      modifies this`draws
      ensures nums == DrawRun(rng, lo, hi, old(draws), count) && draws == old(draws) + count
    {
      ghost var d0 := draws;
      nums := [];
      for i := 0 to count
        invariant |nums| == i && nums == DrawRun(rng, lo, hi, d0, |nums|) && draws == d0 + |nums|
      {
        var n := Rand(lo, hi);
        nums := nums + [n];
      }
    }

    /**
     * Sixteen `$list[] = generate_keys_txt(name, rand())` appends: the
     * sixteen numbers are drawn in order, then their keys appended.
     */
    method AppendKeys(list: seq<string>, name: string) returns (result: seq<string>)
      modifies this`draws
      ensures result == list + NewKeys(mac, name, rng, randMax, old(draws)) && draws == old(draws) + 16
    {
      var nums := DrawNumbers(0, randMax, 16);
      result := list + KeyTexts(mac, name, nums);
    }

    /**
     * initfob: refuses an unknown uid, a record without a name and a tag
     * already populated; otherwise populates the record (Populate).
     */
    method InitFob(uid: string) returns (reply: Reply)
      modifies this`keys, this`draws
      ensures uid !in old(keys) ==> reply == Json(map["status" := Str("err"), "message" := Str("uid not defined")]) && keys == old(keys)
      ensures uid in old(keys) && "key_name" !in old(keys)[uid] ==>
        reply == Json(map["status" := Str("err"), "message" := Str("key_name not defined!")]) && keys == old(keys)
      ensures uid in old(keys) && "key_name" in old(keys)[uid] && "anti_tamper_block_readkey" in old(keys)[uid] ==>
        reply == Json(map["status" := Str("err"), "message" := Str("uid already populated (:")]) && keys == old(keys)
      ensures uid in old(keys) && "key_name" in old(keys)[uid] && "anti_tamper_block_readkey" !in old(keys)[uid] ==>
        PopulateDone(old(keys), old(draws), uid, reply)
    {
      if uid !in keys {
        return Json(map["status" := Str("err"), "message" := Str("uid not defined")]);
      }
      var rec := keys[uid];
      if "key_name" !in rec {
        return Json(map["status" := Str("err"), "message" := Str("key_name not defined!")]);
      }
      if "anti_tamper_block_readkey" in rec {
        return Json(map["status" := Str("err"), "message" := Str("uid already populated (:")]);
      }
      reply := Populate(uid);
    }

    /**
     * What initfob leaves for a named, unpopulated tag: draws d and d + 1
     * pick the block, d + 2 .. d + 33 the sixteen A and sixteen B keys
     * appended to the record's lists (an uncaught error when a list is a
     * scalar), d + 34 the first tag number, and the 960 draws after it the
     * filler.
     */
    ghost predicate PopulateDone(keys0: map<string, Record>, d: nat, uid: string, reply: Reply)
      requires uid in keys0
      reads this
    {
      var rec := keys0[uid];
      var name := ValueText(Get(rec, "key_name"));
      && (KeyList(Get(rec, "keya")).None? || KeyList(Get(rec, "keyb")).None? ==> reply.Crash? && keys == keys0)
      && (KeyList(Get(rec, "keya")).Some? && KeyList(Get(rec, "keyb")).Some? ==>
            InstallDone(keys0, d + 34, uid, BlockFor(rng, d),
                        KeyList(Get(rec, "keya")).value + NewKeys(mac, name, rng, randMax, d + 2),
                        KeyList(Get(rec, "keyb")).value + NewKeys(mac, name, rng, randMax, d + 18), reply))
    }

    method Populate(uid: string) returns (reply: Reply)
      requires uid in keys
      modifies this`keys, this`draws
      ensures PopulateDone(old(keys), old(draws), uid, reply)
    {
      var rec := keys[uid];
      var name := ValueText(Get(rec, "key_name"));
      var block := GetRandBlockToWrite();
      var oldA, oldB := KeyList(Get(rec, "keya")), KeyList(Get(rec, "keyb"));
      if oldA.None? {
        return Crash("[] operator not supported for strings");
      }
      var keya := AppendKeys(oldA.value, name);
      if oldB.None? {
        return Crash("[] operator not supported for strings");
      }
      var keyb := AppendKeys(oldB.value, name);
      reply := Install(uid, block, keya, keyb);
    }

    /**
     * The end of initfob once the block and the key lists are known: draw
     * d gives the first tag number, the record is written (InitRecord),
     * and the reply carries the block, its sector's write key, the first
     * tag text, both key lists and the filler drawn from d + 1 on.
     */
    ghost predicate InstallDone(keys0: map<string, Record>, d: nat, uid: string, block: int, keya: seq<string>, keyb: seq<string>, reply: Reply)
      requires uid in keys0 && 4 <= block < 64 && |keya| >= 16 && |keyb| >= 16
      reads this
    {
      var rec := keys0[uid];
      var num := RandAt(rng, d, 0, randMax);
      && keys == keys0[uid := InitRecord(rec, block, keya, keyb, num)]
      && reply == Json(map["status" := Str("init"), "setantiblk" := Int(block), "key" := Str(keyb[block / 4]),
                           "txt" := Str(AntitamperText(mac, ValueText(Get(rec, "key_name")), Int(num))),
                           "keya" := List(keya), "keyb" := List(keyb), "filler" := List(Filler(rng, d + 1))])
    }

    method Install(uid: string, block: int, keya: seq<string>, keyb: seq<string>) returns (reply: Reply)
      requires uid in keys && 4 <= block < 64 && |keya| >= 16 && |keyb| >= 16
      modifies this`keys, this`draws
      ensures InstallDone(old(keys), old(draws), uid, block, keya, keyb, reply)
    {
      var rec := keys[uid];
      var num := Rand(0, randMax);
      var txt := AntitamperText(mac, ValueText(Get(rec, "key_name")), Int(num));
      keys := keys[uid := InitRecord(rec, block, keya, keyb, num)];
      var filler := GetRandFiller();
      reply := Json(map["status" := Str("init"), "setantiblk" := Int(block), "key" := Str(keyb[block / 4]),
                        "txt" := Str(txt), "keya" := List(keya), "keyb" := List(keyb), "filler" := List(filler)]);
    }
  }
}
