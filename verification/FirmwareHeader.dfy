/**
 The validators of firmware images, and the layout that they accept: application part, certificate and core
 part, end to end.
 */
module FirmwareHeader {
  import opened LittleEndian

  datatype FirmwareType = HAILO8 | HAILO15 | HAILO15L | MARS | UNKNOWN

  datatype Status =
    | SUCCESS
    | INVALID_FIRMWARE_HEADER_SIZE
    | INVALID_FIRMWARE_TYPE
    | INCORRECT_FIRMWARE_HEADER_MAGIC
    | UNSUPPORTED_FIRMWARE_HEADER_VERSION
    | CODE_SIZE_BELOW_MINIMUM
    | CODE_OVERRUNS_RAM_SIZE
    | INVALID_FIRMWARE_CODE_SIZE
    | INVALID_CERT_HEADER_SIZE
    | CERT_TOO_LARGE
    | INVALID_CERT_KEY_SIZE
    | INVALID_CERT_CONTENT_SIZE
    | INVALID_APP_CPU_FIRMWARE_HEADER
    | INVALID_APP_CPU_FIRMWARE_CERTIFICATE_HEADER
    | INVALID_CORE_CPU_FIRMWARE_HEADER
    | LEFTOVER_DATA_AFTER_LAST_FIRMWARE_HEADER

  const HEADER_SIZE: nat := 24
  const CERTIFICATE_SIZE: nat := 8
  const VERSION_INITIAL: nat := 0
  const MINIMUM_CODE: nat := 80
  const MAXIMUM_APP_CODE: nat := 0x40000
  const MAXIMUM_CORE_CODE: nat := 0x18000
  const MAXIMUM_SECOND_STAGE_CODE: nat := 0x80000
  const MAXIMUM_KEY: nat := 0x1000
  const MAXIMUM_CONTENT: nat := 0x1000

  function Magic(kind: FirmwareType): (m: nat)
    requires kind != UNKNOWN
    ensures m < WORD
  {
    match kind
    case HAILO8 => 0x1DD89DE0
    case HAILO15 => 0xE905DAAB
    case HAILO15L => 0xF94739AB
    case MARS => 0x8639AA42
  }

  // ---------------------------------------------------------------- the layout

  datatype Part = Part(major: nat, minor: nat, revision: nat, code: seq<Byte>)
  datatype Certificate = Certificate(key: seq<Byte>, content: seq<Byte>)
  datatype Image = Image(app: Part, certificate: Certificate, core: Part)

  function HeaderBytes(kind: FirmwareType, p: Part): (r: seq<Byte>)
    requires kind != UNKNOWN
    ensures |r| == HEADER_SIZE
  {
    Bytes4(Magic(kind)) + Bytes4(VERSION_INITIAL) + Bytes4(p.major) + Bytes4(p.minor) + Bytes4(p.revision)
    + Bytes4(|p.code|)
  }

  function PartBytes(kind: FirmwareType, p: Part): (r: seq<Byte>)
    requires kind != UNKNOWN
    ensures |r| == HEADER_SIZE + |p.code|
  {
    HeaderBytes(kind, p) + p.code
  }

  function CertificateBytes(c: Certificate): (r: seq<Byte>)
    ensures |r| == CERTIFICATE_SIZE + |c.key| + |c.content|
  {
    Bytes4(|c.key|) + Bytes4(|c.content|) + c.key + c.content
  }

  function ImageBytes(kind: FirmwareType, i: Image): seq<Byte>
    requires kind != UNKNOWN
  {
    PartBytes(kind, i.app) + CertificateBytes(i.certificate) + PartBytes(kind, i.core)
  }

  predicate PartFits(p: Part, limit: nat) {
    p.major < WORD && p.minor < WORD && p.revision < WORD && MINIMUM_CODE <= |p.code| <= limit
  }

  predicate CertificateFits(c: Certificate) { |c.key| <= MAXIMUM_KEY && |c.content| <= MAXIMUM_CONTENT }

  predicate ImageFits(i: Image) {
    PartFits(i.app, MAXIMUM_APP_CODE) && CertificateFits(i.certificate) && PartFits(i.core, MAXIMUM_CORE_CODE)
  }

  predicate PartAt(bytes: seq<Byte>, at: nat, kind: FirmwareType, limit: nat, p: Part) {
    kind != UNKNOWN && PartFits(p, limit) && Stands(bytes, at, PartBytes(kind, p))
  }

  predicate CertificateAt(bytes: seq<Byte>, at: nat, c: Certificate) {
    CertificateFits(c) && Stands(bytes, at, CertificateBytes(c))
  }

  // ---------------------------------------------------------------- reading the layout back

  predicate HeaderSays(bytes: seq<Byte>, at: nat, kind: FirmwareType, p: Part)
    requires at + HEADER_SIZE <= |bytes| && kind != UNKNOWN
  {
    && Field(bytes, at) == Magic(kind)
    && Field(bytes, at + 4) == VERSION_INITIAL
    && Field(bytes, at + 8) == p.major
    && Field(bytes, at + 12) == p.minor
    && Field(bytes, at + 16) == p.revision
    && Field(bytes, at + 20) == |p.code|
  }

  lemma HeaderStands(bytes: seq<Byte>, at: nat, kind: FirmwareType, p: Part)
    requires kind != UNKNOWN && at + HEADER_SIZE <= |bytes|
    requires p.major < WORD && p.minor < WORD && p.revision < WORD && |p.code| < WORD
    ensures Stands(bytes, at, HeaderBytes(kind, p)) <==> HeaderSays(bytes, at, kind, p)
  {
    hide Stands, Field, Bytes4;
    var b0, b1, b2, b3 := Bytes4(Magic(kind)), Bytes4(VERSION_INITIAL), Bytes4(p.major), Bytes4(p.minor);
    var b4, b5 := Bytes4(p.revision), Bytes4(|p.code|);
    StandsSplit(bytes, at, b0 + b1 + b2 + b3 + b4, b5);
    StandsSplit(bytes, at, b0 + b1 + b2 + b3, b4);
    StandsSplit(bytes, at, b0 + b1 + b2, b3);
    StandsSplit(bytes, at, b0 + b1, b2);
    StandsSplit(bytes, at, b0, b1);
    FieldStands(bytes, at, Magic(kind));
    FieldStands(bytes, at + 4, VERSION_INITIAL);
    FieldStands(bytes, at + 8, p.major);
    FieldStands(bytes, at + 12, p.minor);
    FieldStands(bytes, at + 16, p.revision);
    FieldStands(bytes, at + 20, |p.code|);
  }

  /** What the fields of a part at `at` say, and only they. */
  lemma PartStands(bytes: seq<Byte>, at: nat, kind: FirmwareType, limit: nat, p: Part)
    requires limit < WORD
    ensures PartAt(bytes, at, kind, limit, p) <==>
            && kind != UNKNOWN && at + HEADER_SIZE <= |bytes| && HeaderSays(bytes, at, kind, p)
            && MINIMUM_CODE <= |p.code| <= limit && Stands(bytes, at + HEADER_SIZE, p.code)
  {
    if kind != UNKNOWN {
      StandsSplit(bytes, at, HeaderBytes(kind, p), p.code);
      if at + HEADER_SIZE <= |bytes| && p.major < WORD && p.minor < WORD && p.revision < WORD && |p.code| < WORD {
        HeaderStands(bytes, at, kind, p);
      }
    }
  }

  lemma CertificateStands(bytes: seq<Byte>, at: nat, c: Certificate)
    ensures CertificateAt(bytes, at, c) <==>
            && at + CERTIFICATE_SIZE <= |bytes| && CertificateFits(c)
            && Field(bytes, at) == |c.key| && Field(bytes, at + 4) == |c.content|
            && Stands(bytes, at + CERTIFICATE_SIZE, c.key)
            && Stands(bytes, at + CERTIFICATE_SIZE + |c.key|, c.content)
  {
    hide Field, Bytes4;
    if CertificateFits(c) {
      var b0, b1 := Bytes4(|c.key|), Bytes4(|c.content|);
      StandsSplit(bytes, at, b0 + b1 + c.key, c.content);
      StandsSplit(bytes, at, b0 + b1, c.key);
      StandsSplit(bytes, at, b0, b1);
      FieldStands(bytes, at, |c.key|);
      FieldStands(bytes, at + 4, |c.content|);
    }
  }

  /** At most one part stands at a place. */
  lemma PartIsUnique(bytes: seq<Byte>, at: nat, kind: FirmwareType, limit: nat, p: Part, q: Part)
    requires limit < WORD && PartAt(bytes, at, kind, limit, p) && PartAt(bytes, at, kind, limit, q)
    ensures p == q
  {
    PartStands(bytes, at, kind, limit, p);
    PartStands(bytes, at, kind, limit, q);
  }

  lemma CertificateIsUnique(bytes: seq<Byte>, at: nat, c: Certificate, d: Certificate)
    requires CertificateAt(bytes, at, c) && CertificateAt(bytes, at, d)
    ensures c == d
  {
    CertificateStands(bytes, at, c);
    CertificateStands(bytes, at, d);
  }

  ghost predicate HasPart(bytes: seq<Byte>, at: nat, kind: FirmwareType, limit: nat) {
    exists p :: PartAt(bytes, at, kind, limit, p)
  }

  ghost predicate HasCertificate(bytes: seq<Byte>, at: nat) {
    exists c :: CertificateAt(bytes, at, c)
  }

  /** The part that the bytes at `at` spell. */
  function PartRead(bytes: seq<Byte>, at: nat): Part
    requires at + HEADER_SIZE <= |bytes| && at + HEADER_SIZE + Field(bytes, at + 20) <= |bytes|
  {
    Part(Field(bytes, at + 8), Field(bytes, at + 12), Field(bytes, at + 16),
         bytes[at + HEADER_SIZE..at + HEADER_SIZE + Field(bytes, at + 20)])
  }

  /** When a part stands at `at`, and which. */
  lemma PartIsRead(bytes: seq<Byte>, at: nat, kind: FirmwareType, limit: nat)
    requires limit < WORD
    ensures HasPart(bytes, at, kind, limit) <==>
            && at + HEADER_SIZE <= |bytes| && kind != UNKNOWN
            && Field(bytes, at) == Magic(kind) && Field(bytes, at + 4) == VERSION_INITIAL
            && MINIMUM_CODE <= Field(bytes, at + 20) <= limit
            && at + HEADER_SIZE + Field(bytes, at + 20) <= |bytes|
    ensures HasPart(bytes, at, kind, limit) ==> PartAt(bytes, at, kind, limit, PartRead(bytes, at))
  {
    hide Field;
    forall p | PartAt(bytes, at, kind, limit, p)
      ensures at + HEADER_SIZE <= |bytes| && HeaderSays(bytes, at, kind, p)
      ensures MINIMUM_CODE <= |p.code| <= limit && Stands(bytes, at + HEADER_SIZE, p.code)
    {
      PartStands(bytes, at, kind, limit, p);
    }
    if at + HEADER_SIZE <= |bytes| && at + HEADER_SIZE + Field(bytes, at + 20) <= |bytes| {
      PartStands(bytes, at, kind, limit, PartRead(bytes, at));
    }
  }

  function CertificateRead(bytes: seq<Byte>, at: nat): Certificate
    requires at + CERTIFICATE_SIZE <= |bytes|
    requires at + CERTIFICATE_SIZE + Field(bytes, at) + Field(bytes, at + 4) <= |bytes|
  {
    var key := at + CERTIFICATE_SIZE;
    var content := key + Field(bytes, at);
    Certificate(bytes[key..content], bytes[content..content + Field(bytes, at + 4)])
  }

  lemma CertificateIsRead(bytes: seq<Byte>, at: nat)
    ensures HasCertificate(bytes, at) <==>
            && at + CERTIFICATE_SIZE <= |bytes|
            && Field(bytes, at) <= MAXIMUM_KEY && Field(bytes, at + 4) <= MAXIMUM_CONTENT
            && at + CERTIFICATE_SIZE + Field(bytes, at) + Field(bytes, at + 4) <= |bytes|
    ensures HasCertificate(bytes, at) ==> CertificateAt(bytes, at, CertificateRead(bytes, at))
  {
    hide Field;
    forall c | CertificateAt(bytes, at, c)
      ensures at + CERTIFICATE_SIZE <= |bytes| && CertificateFits(c)
      ensures Field(bytes, at) == |c.key| && Field(bytes, at + 4) == |c.content|
      ensures Stands(bytes, at + CERTIFICATE_SIZE + |c.key|, c.content)
    {
      CertificateStands(bytes, at, c);
    }
    if at + CERTIFICATE_SIZE <= |bytes|
       && at + CERTIFICATE_SIZE + Field(bytes, at) + Field(bytes, at + 4) <= |bytes| {
      CertificateStands(bytes, at, CertificateRead(bytes, at));
    }
  }

  lemma SizeOfPart(bytes: seq<Byte>, at: nat, kind: FirmwareType)
    requires kind != UNKNOWN && at + HEADER_SIZE <= |bytes| && at + HEADER_SIZE + Field(bytes, at + 20) <= |bytes|
    ensures |PartBytes(kind, PartRead(bytes, at))| == HEADER_SIZE + Field(bytes, at + 20)
  {
  }

  lemma SizeOfCertificate(bytes: seq<Byte>, at: nat)
    requires at + CERTIFICATE_SIZE <= |bytes|
    requires at + CERTIFICATE_SIZE + Field(bytes, at) + Field(bytes, at + 4) <= |bytes|
    ensures |CertificateBytes(CertificateRead(bytes, at))| == CERTIFICATE_SIZE + Field(bytes, at) + Field(bytes, at + 4)
  {
  }

  // ---------------------------------------------------------------- the validators

  /** CONSUME_FIRMWARE: the 32-bit offset moves on before anything at the old offset is used. */
  method Consume(firmwareSize: nat, offset: nat, size: nat) returns (fits: bool, next: nat)
    requires offset <= firmwareSize < WORD && size < WORD
    ensures next == (offset + size) % WORD
    ensures offset + size < WORD ==> next == offset + size && (fits <==> next <= firmwareSize)
    ensures offset + size >= WORD ==> (fits <==> size <= firmwareSize)
  {
    next := (offset + size) % WORD;
    fits := !(firmwareSize < size || firmwareSize < next);
  }

  /** What each status of a part says about it. */
  predicate HeaderFault(bytes: seq<Byte>, at: nat, kind: FirmwareType, limit: nat, status: Status) {
    if at + HEADER_SIZE > |bytes| then status == INVALID_FIRMWARE_HEADER_SIZE
    else if kind == UNKNOWN then status == INVALID_FIRMWARE_TYPE
    else
      var codeSize := Field(bytes, at + 20);
      && status in {SUCCESS, INCORRECT_FIRMWARE_HEADER_MAGIC, UNSUPPORTED_FIRMWARE_HEADER_VERSION,
                    CODE_SIZE_BELOW_MINIMUM, CODE_OVERRUNS_RAM_SIZE, INVALID_FIRMWARE_CODE_SIZE}
      && (status == INCORRECT_FIRMWARE_HEADER_MAGIC <==> Field(bytes, at) != Magic(kind))
      && (status == UNSUPPORTED_FIRMWARE_HEADER_VERSION ==> Field(bytes, at + 4) != VERSION_INITIAL)
      && (status == CODE_SIZE_BELOW_MINIMUM ==> codeSize < MINIMUM_CODE)
      && (status == CODE_OVERRUNS_RAM_SIZE ==> codeSize > limit)
      && (status == INVALID_FIRMWARE_CODE_SIZE ==> |bytes| < at + HEADER_SIZE + codeSize)
  }

  predicate CertificateFault(bytes: seq<Byte>, at: nat, status: Status) {
    if at + CERTIFICATE_SIZE > |bytes| then status == INVALID_CERT_HEADER_SIZE
    else
      var keySize, contentSize := Field(bytes, at), Field(bytes, at + 4);
      && status in {SUCCESS, CERT_TOO_LARGE, INVALID_CERT_KEY_SIZE, INVALID_CERT_CONTENT_SIZE}
      && (status == CERT_TOO_LARGE <==> keySize > MAXIMUM_KEY || contentSize > MAXIMUM_CONTENT)
      && (status == INVALID_CERT_KEY_SIZE ==> |bytes| < at + CERTIFICATE_SIZE + keySize)
      && (status == INVALID_CERT_CONTENT_SIZE ==>
            at + CERTIFICATE_SIZE + keySize <= |bytes| < at + CERTIFICATE_SIZE + keySize + contentSize)
  }

  /** A part at `at`; on failure nothing is consumed. */
  method ValidateHeader(bytes: seq<Byte>, limit: nat, at: nat, kind: FirmwareType)
    returns (status: Status, next: nat, ghost part: Part)
    requires at <= |bytes| < WORD && at + HEADER_SIZE + limit < WORD
    ensures status == SUCCESS <==> HasPart(bytes, at, kind, limit)
    ensures status == SUCCESS ==>
              kind != UNKNOWN && PartAt(bytes, at, kind, limit, part) && next == at + |PartBytes(kind, part)|
    ensures next <= |bytes| && next <= at + HEADER_SIZE + limit
    ensures status != SUCCESS ==> next == at
    ensures HeaderFault(bytes, at, kind, limit, status)
  {
    next := at;
    part := Part(0, 0, 0, []);
    PartIsRead(bytes, at, kind, limit);
    hide Field, PartAt, HasPart, PartRead;
    var fits, offset := Consume(|bytes|, at, HEADER_SIZE);
    if !fits { return INVALID_FIRMWARE_HEADER_SIZE, next, part; }
    if kind == UNKNOWN { return INVALID_FIRMWARE_TYPE, next, part; }
    if Magic(kind) != Field(bytes, at) { return INCORRECT_FIRMWARE_HEADER_MAGIC, next, part; }
    if Field(bytes, at + 4) != VERSION_INITIAL { return UNSUPPORTED_FIRMWARE_HEADER_VERSION, next, part; }
    var codeSize := Field(bytes, at + 20);
    if MINIMUM_CODE > codeSize { return CODE_SIZE_BELOW_MINIMUM, next, part; }
    if limit < codeSize { return CODE_OVERRUNS_RAM_SIZE, next, part; }
    fits, offset := Consume(|bytes|, offset, codeSize);
    if !fits { return INVALID_FIRMWARE_CODE_SIZE, next, part; }
    part := PartRead(bytes, at);
    SizeOfPart(bytes, at, kind);
    return SUCCESS, offset, part;
  }

  /** A certificate at `at`; on failure nothing is consumed. */
  method ValidateCertificate(bytes: seq<Byte>, at: nat)
    returns (status: Status, next: nat, ghost certificate: Certificate)
    requires at <= |bytes| < WORD && at + CERTIFICATE_SIZE + MAXIMUM_KEY + MAXIMUM_CONTENT < WORD
    ensures status == SUCCESS <==> HasCertificate(bytes, at)
    ensures status == SUCCESS ==> CertificateAt(bytes, at, certificate) && next == at + |CertificateBytes(certificate)|
    ensures next <= |bytes| && next <= at + CERTIFICATE_SIZE + MAXIMUM_KEY + MAXIMUM_CONTENT
    ensures status != SUCCESS ==> next == at
    ensures CertificateFault(bytes, at, status)
  {
    next := at;
    certificate := Certificate([], []);
    CertificateIsRead(bytes, at);
    hide Field, CertificateAt, HasCertificate, CertificateRead;
    var fits, offset := Consume(|bytes|, at, CERTIFICATE_SIZE);
    if !fits { return INVALID_CERT_HEADER_SIZE, next, certificate; }
    var keySize, contentSize := Field(bytes, at), Field(bytes, at + 4);
    if MAXIMUM_KEY < keySize || MAXIMUM_CONTENT < contentSize { return CERT_TOO_LARGE, next, certificate; }
    fits, offset := Consume(|bytes|, offset, keySize);
    if !fits { return INVALID_CERT_KEY_SIZE, next, certificate; }
    fits, offset := Consume(|bytes|, offset, contentSize);
    if !fits { return INVALID_CERT_CONTENT_SIZE, next, certificate; }
    certificate := CertificateRead(bytes, at);
    SizeOfCertificate(bytes, at);
    return SUCCESS, offset, certificate;
  }

  // ---------------------------------------------------------------- whole images

  datatype Outcome = Valid(app: nat, certificate: nat, core: nat) | Invalid(status: Status)

  predicate ImageAt(bytes: seq<Byte>, kind: FirmwareType, i: Image) {
    kind != UNKNOWN && ImageFits(i) && Stands(bytes, 0, ImageBytes(kind, i))
  }

  /** The image at the start is all there is, or the size was not known. */
  predicate Accepts(bytes: seq<Byte>, sizeUnknown: bool, kind: FirmwareType, i: Image) {
    ImageAt(bytes, kind, i) && (sizeUnknown || bytes == ImageBytes(kind, i))
  }

  lemma ImageSplits(bytes: seq<Byte>, kind: FirmwareType, i: Image)
    ensures ImageAt(bytes, kind, i) <==>
            && PartAt(bytes, 0, kind, MAXIMUM_APP_CODE, i.app)
            && CertificateAt(bytes, |PartBytes(kind, i.app)|, i.certificate)
            && PartAt(bytes, |PartBytes(kind, i.app)| + |CertificateBytes(i.certificate)|,
                      kind, MAXIMUM_CORE_CODE, i.core)
  {
    if kind != UNKNOWN {
      var a, c, o := PartBytes(kind, i.app), CertificateBytes(i.certificate), PartBytes(kind, i.core);
      StandsSplit(bytes, 0, a + c, o);
      StandsSplit(bytes, 0, a, c);
    }
  }

  /** Every byte string starts with at most one image. */
  lemma ImageIsUnique(bytes: seq<Byte>, kind: FirmwareType, i: Image, j: Image)
    requires ImageAt(bytes, kind, i) && ImageAt(bytes, kind, j)
    ensures i == j
  {
    ImageSplits(bytes, kind, i);
    ImageSplits(bytes, kind, j);
    PartIsUnique(bytes, 0, kind, MAXIMUM_APP_CODE, i.app, j.app);
    CertificateIsUnique(bytes, |PartBytes(kind, i.app)|, i.certificate, j.certificate);
    PartIsUnique(bytes, |PartBytes(kind, i.app)| + |CertificateBytes(i.certificate)|, kind, MAXIMUM_CORE_CODE,
                 i.core, j.core);
  }

  ghost predicate HasImage(bytes: seq<Byte>, kind: FirmwareType) {
    exists i :: ImageAt(bytes, kind, i)
  }

  /** A first part with no certificate behind it. */
  ghost predicate LacksCertificate(bytes: seq<Byte>, kind: FirmwareType, limit: nat) {
    exists p :: PartAt(bytes, 0, kind, limit, p) && !HasCertificate(bytes, |PartBytes(kind, p)|)
  }

  /** An application part and a certificate with no core part behind them. */
  ghost predicate LacksCore(bytes: seq<Byte>, kind: FirmwareType) {
    exists p, c :: PartAt(bytes, 0, kind, MAXIMUM_APP_CODE, p) && CertificateAt(bytes, |PartBytes(kind, p)|, c)
                   && !HasPart(bytes, |PartBytes(kind, p)| + |CertificateBytes(c)|, kind, MAXIMUM_CORE_CODE)
  }

  lemma WithoutApp(bytes: seq<Byte>, kind: FirmwareType)
    requires !HasPart(bytes, 0, kind, MAXIMUM_APP_CODE)
    ensures !HasImage(bytes, kind) && !LacksCertificate(bytes, kind, MAXIMUM_APP_CODE) && !LacksCore(bytes, kind)
  {
    forall i | ImageAt(bytes, kind, i)
      ensures false
    {
      ImageSplits(bytes, kind, i);
    }
  }

  lemma WithoutCertificate(bytes: seq<Byte>, kind: FirmwareType, app: Part)
    requires PartAt(bytes, 0, kind, MAXIMUM_APP_CODE, app) && !HasCertificate(bytes, |PartBytes(kind, app)|)
    ensures !HasImage(bytes, kind) && !LacksCore(bytes, kind)
  {
    forall p | PartAt(bytes, 0, kind, MAXIMUM_APP_CODE, p)
      ensures p == app
    {
      PartIsUnique(bytes, 0, kind, MAXIMUM_APP_CODE, p, app);
    }
    forall i | ImageAt(bytes, kind, i)
      ensures false
    {
      ImageSplits(bytes, kind, i);
    }
  }

  lemma WithCertificate(bytes: seq<Byte>, kind: FirmwareType, limit: nat, part: Part)
    requires limit < WORD
    requires PartAt(bytes, 0, kind, limit, part) && HasCertificate(bytes, |PartBytes(kind, part)|)
    ensures !LacksCertificate(bytes, kind, limit)
  {
    forall p | PartAt(bytes, 0, kind, limit, p)
      ensures p == part
    {
      PartIsUnique(bytes, 0, kind, limit, p, part);
    }
  }

  lemma WithoutCore(bytes: seq<Byte>, kind: FirmwareType, app: Part, certificate: Certificate, at: nat)
    requires kind != UNKNOWN && PartAt(bytes, 0, kind, MAXIMUM_APP_CODE, app)
    requires CertificateAt(bytes, |PartBytes(kind, app)|, certificate)
    requires at == |PartBytes(kind, app)| + |CertificateBytes(certificate)|
    requires !HasPart(bytes, at, kind, MAXIMUM_CORE_CODE)
    ensures !HasImage(bytes, kind) && LacksCore(bytes, kind)
  {
    hide PartAt, CertificateAt, PartBytes, CertificateBytes, ImageAt;
    forall i | ImageAt(bytes, kind, i)
      ensures false
    {
      ImageSplits(bytes, kind, i);
      PartIsUnique(bytes, 0, kind, MAXIMUM_APP_CODE, i.app, app);
      CertificateIsUnique(bytes, |PartBytes(kind, app)|, i.certificate, certificate);
    }
  }

  ghost predicate IsAccepted(bytes: seq<Byte>, sizeUnknown: bool, kind: FirmwareType) {
    exists i :: Accepts(bytes, sizeUnknown, kind, i)
  }

  /** The outcome says where the parts of the image are. */
  ghost predicate PointsAtParts(bytes: seq<Byte>, sizeUnknown: bool, kind: FirmwareType, outcome: Outcome)
    requires outcome.Valid?
  {
    exists i :: Accepts(bytes, sizeUnknown, kind, i) && outcome.app == 0
                && outcome.certificate == |PartBytes(kind, i.app)|
                && outcome.core == |PartBytes(kind, i.app)| + |CertificateBytes(i.certificate)|
  }

  lemma WithoutImage(bytes: seq<Byte>, sizeUnknown: bool, kind: FirmwareType)
    requires !HasImage(bytes, kind)
    ensures !IsAccepted(bytes, sizeUnknown, kind)
  {
  }

  lemma Lacks(bytes: seq<Byte>, kind: FirmwareType, limit: nat, part: Part)
    requires PartAt(bytes, 0, kind, limit, part) && !HasCertificate(bytes, |PartBytes(kind, part)|)
    ensures LacksCertificate(bytes, kind, limit)
  {
  }

  lemma WithCore(bytes: seq<Byte>, kind: FirmwareType, app: Part, certificate: Certificate)
    requires kind != UNKNOWN && PartAt(bytes, 0, kind, MAXIMUM_APP_CODE, app)
    requires CertificateAt(bytes, |PartBytes(kind, app)|, certificate)
    requires HasPart(bytes, |PartBytes(kind, app)| + |CertificateBytes(certificate)|, kind, MAXIMUM_CORE_CODE)
    ensures !LacksCore(bytes, kind)
  {
    hide PartAt, CertificateAt, PartBytes, CertificateBytes, HasPart;
    forall p, c | PartAt(bytes, 0, kind, MAXIMUM_APP_CODE, p) && CertificateAt(bytes, |PartBytes(kind, p)|, c)
      ensures p == app && c == certificate
    {
      PartIsUnique(bytes, 0, kind, MAXIMUM_APP_CODE, p, app);
      CertificateIsUnique(bytes, |PartBytes(kind, app)|, c, certificate);
    }
  }

  lemma WithImage(bytes: seq<Byte>, sizeUnknown: bool, kind: FirmwareType,
                  app: Part, certificate: Certificate, core: Part)
    requires kind != UNKNOWN && PartAt(bytes, 0, kind, MAXIMUM_APP_CODE, app)
    requires CertificateAt(bytes, |PartBytes(kind, app)|, certificate)
    requires PartAt(bytes, |PartBytes(kind, app)| + |CertificateBytes(certificate)|, kind, MAXIMUM_CORE_CODE, core)
    ensures HasImage(bytes, kind) && !LacksCore(bytes, kind)
    ensures IsAccepted(bytes, sizeUnknown, kind) <==>
            sizeUnknown || |bytes| == |PartBytes(kind, app)| + |CertificateBytes(certificate)| + |PartBytes(kind, core)|
    ensures IsAccepted(bytes, sizeUnknown, kind) ==>
              PointsAtParts(bytes, sizeUnknown, kind,
                            Valid(0, |PartBytes(kind, app)|, |PartBytes(kind, app)| + |CertificateBytes(certificate)|))
  {
    hide PartAt, CertificateAt, PartBytes, CertificateBytes;
    var image := Image(app, certificate, core);
    ImageSplits(bytes, kind, image);
    forall i | ImageAt(bytes, kind, i)
      ensures i == image
    {
      ImageIsUnique(bytes, kind, i, image);
    }
    var bs := ImageBytes(kind, image);
    assert bytes == bs <==> |bytes| == |bs|;
    if sizeUnknown || |bytes| == |bs| { assert Accepts(bytes, sizeUnknown, kind, image); }
    WithCore(bytes, kind, app, certificate);
  }

  /** Accepts exactly the images, and says where their parts are. */
  method ValidateImage(bytes: seq<Byte>, sizeUnknown: bool, kind: FirmwareType) returns (outcome: Outcome)
    requires |bytes| < WORD
    ensures outcome.Valid? <==> IsAccepted(bytes, sizeUnknown, kind)
    ensures outcome.Valid? ==> PointsAtParts(bytes, sizeUnknown, kind, outcome)
    ensures outcome == Invalid(INVALID_APP_CPU_FIRMWARE_HEADER) <==> !HasPart(bytes, 0, kind, MAXIMUM_APP_CODE)
    ensures outcome == Invalid(INVALID_APP_CPU_FIRMWARE_CERTIFICATE_HEADER) <==>
            LacksCertificate(bytes, kind, MAXIMUM_APP_CODE)
    ensures outcome == Invalid(INVALID_CORE_CPU_FIRMWARE_HEADER) <==> LacksCore(bytes, kind)
    ensures outcome == Invalid(LEFTOVER_DATA_AFTER_LAST_FIRMWARE_HEADER) <==>
            HasImage(bytes, kind) && !IsAccepted(bytes, sizeUnknown, kind)
  {
    hide PartAt, CertificateAt, HasPart, HasCertificate, HasImage, IsAccepted, PointsAtParts;
    hide LacksCertificate, LacksCore, PartBytes, CertificateBytes, HeaderFault, CertificateFault;
    var status, offset;
    ghost var app, certificate, core;
    status, offset, app := ValidateHeader(bytes, MAXIMUM_APP_CODE, 0, kind);
    if status != SUCCESS {
      WithoutApp(bytes, kind);
      WithoutImage(bytes, sizeUnknown, kind);
      return Invalid(INVALID_APP_CPU_FIRMWARE_HEADER);
    }
    var certificateAt := offset;
    status, offset, certificate := ValidateCertificate(bytes, offset);
    if status != SUCCESS {
      WithoutCertificate(bytes, kind, app);
      Lacks(bytes, kind, MAXIMUM_APP_CODE, app);
      WithoutImage(bytes, sizeUnknown, kind);
      return Invalid(INVALID_APP_CPU_FIRMWARE_CERTIFICATE_HEADER);
    }
    WithCertificate(bytes, kind, MAXIMUM_APP_CODE, app);
    var coreAt := offset;
    status, offset, core := ValidateHeader(bytes, MAXIMUM_CORE_CODE, offset, kind);
    if status != SUCCESS {
      WithoutCore(bytes, kind, app, certificate, coreAt);
      WithoutImage(bytes, sizeUnknown, kind);
      return Invalid(INVALID_CORE_CPU_FIRMWARE_HEADER);
    }
    WithImage(bytes, sizeUnknown, kind, app, certificate, core);
    if offset != |bytes| && !sizeUnknown { return Invalid(LEFTOVER_DATA_AFTER_LAST_FIRMWARE_HEADER); }
    return Valid(0, certificateAt, coreAt);
  }

  /** A second stage is a part and a certificate, and nothing else. */
  ghost predicate SecondStage(bytes: seq<Byte>, kind: FirmwareType, p: Part, c: Certificate) {
    && kind != UNKNOWN && PartFits(p, MAXIMUM_SECOND_STAGE_CODE) && CertificateFits(c)
    && bytes == PartBytes(kind, p) + CertificateBytes(c)
  }

  lemma SecondStageSplits(bytes: seq<Byte>, kind: FirmwareType, p: Part, c: Certificate)
    ensures SecondStage(bytes, kind, p, c) <==>
            && PartAt(bytes, 0, kind, MAXIMUM_SECOND_STAGE_CODE, p) && CertificateAt(bytes, |PartBytes(kind, p)|, c)
            && |PartBytes(kind, p)| + |CertificateBytes(c)| == |bytes|
  {
    if kind != UNKNOWN { StandsSplit(bytes, 0, PartBytes(kind, p), CertificateBytes(c)); }
  }

  lemma OnlySecondStage(bytes: seq<Byte>, kind: FirmwareType, part: Part)
    requires PartAt(bytes, 0, kind, MAXIMUM_SECOND_STAGE_CODE, part)
    ensures forall p, c :: SecondStage(bytes, kind, p, c) ==>
                             p == part && CertificateAt(bytes, |PartBytes(kind, part)|, c)
                             && |PartBytes(kind, part)| + |CertificateBytes(c)| == |bytes|
  {
    forall p, c | SecondStage(bytes, kind, p, c)
      ensures p == part && CertificateAt(bytes, |PartBytes(kind, part)|, c)
              && |PartBytes(kind, part)| + |CertificateBytes(c)| == |bytes|
    {
      SecondStageSplits(bytes, kind, p, c);
      PartIsUnique(bytes, 0, kind, MAXIMUM_SECOND_STAGE_CODE, p, part);
    }
  }

  lemma NoSecondStage(bytes: seq<Byte>, kind: FirmwareType)
    requires !HasPart(bytes, 0, kind, MAXIMUM_SECOND_STAGE_CODE)
    ensures forall p, c :: !SecondStage(bytes, kind, p, c)
  {
    forall p, c | SecondStage(bytes, kind, p, c)
      ensures false
    {
      SecondStageSplits(bytes, kind, p, c);
    }
  }

  method ValidateSecondStage(bytes: seq<Byte>, kind: FirmwareType) returns (status: Status)
    requires |bytes| < WORD
    ensures status == SUCCESS <==> exists p, c :: SecondStage(bytes, kind, p, c)
    ensures status == INVALID_APP_CPU_FIRMWARE_HEADER <==> !HasPart(bytes, 0, kind, MAXIMUM_SECOND_STAGE_CODE)
    ensures status == INVALID_APP_CPU_FIRMWARE_CERTIFICATE_HEADER <==>
            LacksCertificate(bytes, kind, MAXIMUM_SECOND_STAGE_CODE)
    ensures status in {SUCCESS, INVALID_APP_CPU_FIRMWARE_HEADER, INVALID_APP_CPU_FIRMWARE_CERTIFICATE_HEADER,
                       LEFTOVER_DATA_AFTER_LAST_FIRMWARE_HEADER}
  {
    hide PartAt, CertificateAt, SecondStage;
    var offset;
    ghost var part, certificate;
    status, offset, part := ValidateHeader(bytes, MAXIMUM_SECOND_STAGE_CODE, 0, kind);
    if status != SUCCESS {
      NoSecondStage(bytes, kind);
      return INVALID_APP_CPU_FIRMWARE_HEADER;
    }
    assert HasPart(bytes, 0, kind, MAXIMUM_SECOND_STAGE_CODE);
    OnlySecondStage(bytes, kind, part);
    var certificateAt := offset;
    status, offset, certificate := ValidateCertificate(bytes, offset);
    if status != SUCCESS {
      Lacks(bytes, kind, MAXIMUM_SECOND_STAGE_CODE, part);
      return INVALID_APP_CPU_FIRMWARE_CERTIFICATE_HEADER;
    }
    WithCertificate(bytes, kind, MAXIMUM_SECOND_STAGE_CODE, part);
    forall c | CertificateAt(bytes, certificateAt, c)
      ensures c == certificate
    {
      CertificateIsUnique(bytes, certificateAt, c, certificate);
    }
    if offset != |bytes| { return LEFTOVER_DATA_AFTER_LAST_FIRMWARE_HEADER; }
    SecondStageSplits(bytes, kind, part, certificate);
    return SUCCESS;
  }
}
