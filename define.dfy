/**
 * The public entry point (src/parser/define.ts): the Define-XML version and
 * the ARM flag choose the mapper. Version "2.0" goes to the 2.0 mapper with
 * the flag; version "2.1" goes to the 2.1 mapper, which takes no flag, so
 * asking for ARM there changes nothing. Any other version is rejected.
 */
module Define {
  import opened Base
  import opened Tree
  import Reading
  import Define20
  import Define21

  /** The document either mapper returns. */
  datatype Document = Define20Doc(doc20: Define20.DefineXml) | Define21Doc(doc21: Define21.DefineXml)

  const Unsupported := "Unsupported Define-XML version or ARM flag"

  /** `parseDefineXml(xmlString, defineVer, hasArm)` after the XML has been
      read: the four supported combinations are tried in order, and the
      first that matches decides. */
  function ParseDefineXml(prolog: Reading.Prolog, read: Reading.ReadOutcome, defineVer: string, hasArm: bool): (r: Result<Document>)
    ensures defineVer != "2.0" && defineVer != "2.1" ==> r == Err(Thrown(Unsupported))
    ensures r.Ok? && r.value.Define20Doc? ==> defineVer == "2.0"
    ensures r.Ok? && r.value.Define21Doc? ==> defineVer == "2.1"
    ensures r.Ok? && r.value.Define20Doc? ==> (r.value.doc20.odm.xmlnsArm.Some? <==> hasArm)
  {
    if defineVer == "2.0" && !hasArm then Lift(Define20.ParseDefineXml(prolog, read, false), d => Define20Doc(d))
    else if defineVer == "2.1" && !hasArm then Lift(Define21.ParseDefineXml(prolog, read), d => Define21Doc(d))
    else if defineVer == "2.0" && hasArm then Lift(Define20.ParseDefineXml(prolog, read, true), d => Define20Doc(d))
    else if defineVer == "2.1" && hasArm then Lift(Define21.ParseDefineXml(prolog, read), d => Define21Doc(d))
    else Err(Thrown(Unsupported))
  }

  /** Version "2.0" is read by the 2.0 mapper, with the flag as given. */
  lemma Route20(prolog: Reading.Prolog, read: Reading.ReadOutcome, hasArm: bool)
    ensures ParseDefineXml(prolog, read, "2.0", hasArm) == Lift(Define20.ParseDefineXml(prolog, read, hasArm), d => Define20Doc(d))
  {
  }

  /** Version "2.1" is read by the 2.1 mapper, whatever the flag says. */
  lemma Route21(prolog: Reading.Prolog, read: Reading.ReadOutcome, hasArm: bool)
    ensures ParseDefineXml(prolog, read, "2.1", hasArm) == Lift(Define21.ParseDefineXml(prolog, read), d => Define21Doc(d))
    ensures ParseDefineXml(prolog, read, "2.1", hasArm) == ParseDefineXml(prolog, read, "2.1", false)
  {
  }

  /** Asking for ARM on a 2.0 document only adds the ARM parts: with them
      taken off, it is the document read without ARM. */
  lemma ArmOnlyAdds20(prolog: Reading.Prolog, read: Reading.ReadOutcome)
    requires ParseDefineXml(prolog, read, "2.0", true).Ok?
    ensures ParseDefineXml(prolog, read, "2.0", false) == Ok(Define20Doc(Define20.WithoutArm(ParseDefineXml(prolog, read, "2.0", true).value.doc20)))
  {
    Route20(prolog, read, true);
    Define20.ArmOnlyAdds(prolog, read);
  }
}
