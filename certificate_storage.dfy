/** The JSON-file certificate store `data/certificates.json`, and the QR payload
    a certificate carries. */
module CertificateStorage {
  import opened Wrappers
  import opened Seqs
  import opened UserRecords

  /** The details encoded in a certificate's QR code; every field is text. */
  datatype QrData = QrData(
    certificateId: string,
    name: string,
    fatherHusbandName: string,
    registrationNumber: string,
    mobileNo: string,
    emailId: string,
    dateOfBirth: string,
    courseName: string,
    collegeName: string,
    experience: string,
    passoutPercentage: string,
    state: string,
    address: string,
    issueDate: string,
    verificationUrl: string
  )

  datatype StoredCertificate = StoredCertificate(
    certificateId: string,
    userId: string,
    qrData: QrData,
    createdAt: string,
    qrCodeDataUrl: string
  )

  /** `cert.certificateId === certificateId`. */
  function HasCertificateId(certificateId: string): StoredCertificate -> bool {
    (c: StoredCertificate) => c.certificateId == certificateId
  }

  class CertificateFile {
    /** What `data/certificates.json` holds. */
    var certificatesFile: JsonFile<StoredCertificate>

    constructor (initial: JsonFile<StoredCertificate>)
      ensures certificatesFile == initial
    {
      certificatesFile := initial;
    }

    /** `getAllCertificates`: the stored list, or `[]` when the file cannot be
        read or parsed. */
    function GetAllCertificates(): (r: seq<StoredCertificate>)
      reads this
      ensures certificatesFile.Holds? ==> r == certificatesFile.items
      ensures !certificatesFile.Holds? ==> r == []
    {
      Loaded(certificatesFile)
    }

    /** `saveCertificates`: overwrites the certificates file. */
    method SaveCertificates(certificates: seq<StoredCertificate>)
      modifies this
      ensures certificatesFile == Holds(certificates)
    {
      certificatesFile := Holds(certificates);
    }

    /** `addCertificate`: appends, with no check for an existing id. */
    method AddCertificate(certificate: StoredCertificate)
      modifies this
      ensures certificatesFile == Holds(old(GetAllCertificates()) + [certificate])
    {
      var certificates := GetAllCertificates();
      certificates := certificates + [certificate];
      SaveCertificates(certificates);
    }

    /** `findCertificate`: the first certificate stored under `certificateId`. */
    function FindCertificate(certificateId: string): (r: Option<StoredCertificate>)
      reads this
      ensures r.Some? ==> r.value.certificateId == certificateId
      ensures r.Some? ==>
        exists i :: 0 <= i < |GetAllCertificates()| && GetAllCertificates()[i] == r.value
          && forall j :: 0 <= j < i ==> GetAllCertificates()[j].certificateId != certificateId
      ensures r.None? <==>
        forall j :: 0 <= j < |GetAllCertificates()| ==>
          GetAllCertificates()[j].certificateId != certificateId
    {
      Find(GetAllCertificates(), HasCertificateId(certificateId))
    }
  }

  /** After appending `c`, looking up its id finds `c` when no earlier
      certificate had that id, and otherwise still finds the earlier one: a
      duplicate id shadows the new certificate. */
  lemma FindAfterAddCertificate(before: seq<StoredCertificate>, c: StoredCertificate)
    ensures Find(before, HasCertificateId(c.certificateId)).None? ==>
              Find(before + [c], HasCertificateId(c.certificateId)) == Some(c)
    ensures Find(before, HasCertificateId(c.certificateId)).Some? ==>
              Find(before + [c], HasCertificateId(c.certificateId))
                == Find(before, HasCertificateId(c.certificateId))
  {
    var q := HasCertificateId(c.certificateId);
    FindAppend(before, [c], q);
    assert q(c);
    assert FindIndex([c], q) == Some(0);
    if FindIndex(before, q).Some? {
      assert (before + [c])[FindIndex(before, q).value] == before[FindIndex(before, q).value];
    } else {
      assert (before + [c])[|before|] == c;
    }
  }

  /** Adding a certificate never changes what another id finds. */
  lemma FindOtherAfterAddCertificate(before: seq<StoredCertificate>, c: StoredCertificate, id: string)
    requires id != c.certificateId
    ensures Find(before + [c], HasCertificateId(id)) == Find(before, HasCertificateId(id))
  {
    var q := HasCertificateId(id);
    FindAppend(before, [c], q);
    assert !q(c);
    assert FindIndex([c], q) == None;
    if FindIndex(before, q).Some? {
      assert (before + [c])[FindIndex(before, q).value] == before[FindIndex(before, q).value];
    }
  }
}
