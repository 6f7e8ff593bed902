/**
 * The two enumerations of IEEE 11073-10207 (BICEPS) that the correlation check
 * works with, and the XML value strings under which a manipulation's parameters
 * carry them.
 */
module Biceps {
  /** pm:ComponentActivation, the activation state of a metric. */
  datatype ComponentActivation = On | NotRdy | StndBy | Off | Shtdn | Fail

  /** pm:MetricCategory, the category of a metric descriptor. */
  datatype MetricCategory = Unspec | Msrmt | Clc | Set | Preset | Rcmm

  /** The XML enumeration value of an activation state. */
  function ActivationValue(a: ComponentActivation): string {
    match a
    case On => "On"
    case NotRdy => "NotRdy"
    case StndBy => "StndBy"
    case Off => "Off"
    case Shtdn => "Shtdn"
    case Fail => "Fail"
  }

  /** The XML enumeration value of a metric category. */
  function CategoryValue(c: MetricCategory): string {
    match c
    case Unspec => "Unspec"
    case Msrmt => "Msrmt"
    case Clc => "Clc"
    case Set => "Set"
    case Preset => "Preset"
    case Rcmm => "Rcmm"
  }

  /** Distinct metric categories have distinct XML values. */
  lemma CategoryValueInjective(a: MetricCategory, b: MetricCategory)
    ensures CategoryValue(a) == CategoryValue(b) <==> a == b
  {
  }
}
